/**
 The acceptance gate: the slot query over the ledgers of all scopes, the
 criteria of `evaluate_observation`, and what a passed gate promises about the
 ledgers.
 */
module QualityGate {
  import opened Wrappers
  import opened SlotSchedule
  import opened GapQuery

  const TICKS_PER_SECOND: int := 1_000_000

  // ----- the slot query -----

  /** The slots of `generate_series` up to the cutoff. */
  function SlotCount(s: Schedule, until: int): nat
    requires s.Ok()
  {
    if until < s.start then 0 else DivNonNegative(until - s.start, s.interval)
  }

  function DivNonNegative(a: nat, b: int): (q: nat)
    requires b > 0
    ensures b * q <= a < b * q + b
  {
    DivBounds(a, b);
    a / b
  }

  /** `LEFT JOIN ... ON cycle.expected_at = slot.expected_at`. */
  function Joined(rows: seq<Cycle>, expectedAt: int): Option<Outcome>
    decreases |rows|
  {
    if rows == [] then None
    else if rows[|rows| - 1].expectedAt == expectedAt then Some(rows[|rows| - 1].outcome)
    else Joined(rows[..|rows| - 1], expectedAt)
  }

  datatype Slot = Absent | Recorded(outcome: Outcome)

  function SlotAt(s: Schedule, rows: seq<Cycle>, i: nat): Slot {
    match Joined(rows, s.ExpectedAt(i + 1))
    case None => Absent
    case Some(outcome) => Recorded(outcome)
  }

  function Slots(s: Schedule, rows: seq<Cycle>, until: int): (r: seq<Slot>)
    requires s.Ok()
    ensures |r| == SlotCount(s, until)
  {
    seq(SlotCount(s, until), i requires 0 <= i => SlotAt(s, rows, i))
  }

  predicate Attempts(slot: Slot) { slot.Recorded? && slot.outcome.Attempted() }

  /** Missed rows never carry an explanation: the table forbids it. */
  function Unexplained(slots: seq<Slot>): (r: seq<bool>)
    ensures |r| == |slots|
  {
    seq(|slots|, i requires 0 <= i < |slots| => !Attempts(slots[i]))
  }

  /** On a ledger that keeps its invariant, slot `i` is row `i`. */
  lemma {:induction false} JoinExact(h: CycleHash, s: Schedule, rows: seq<Cycle>, clock: int, i: nat)
    requires s.Ok() && LedgerOk(h, s, rows, clock)
    ensures SlotAt(s, rows, i) == if i < |rows| then Recorded(rows[i].outcome) else Absent
    decreases |rows|
  {
    if rows != [] {
      var last := |rows| - 1;
      LedgerPrefix(h, s, rows, last, clock);
      assert RowOk(h, s, rows, last, clock);
      MulOrder(s.interval, i + 1, |rows|);
      MulOrder(s.interval, |rows|, i + 1);
      JoinExact(h, s, rows[..last], clock, i);
    }
  }

  datatype SlotCounts = SlotCounts(attempted: nat, succeeded: nat, missed: nat, absent: nat)

  function Add(a: SlotCounts, b: SlotCounts): SlotCounts {
    SlotCounts(a.attempted + b.attempted, a.succeeded + b.succeeded, a.missed + b.missed, a.absent + b.absent)
  }

  function CountSlots(slots: seq<Slot>): SlotCounts
    decreases |slots|
  {
    if slots == [] then SlotCounts(0, 0, 0, 0)
    else
      var one := match slots[|slots| - 1]
        case Absent => SlotCounts(0, 0, 0, 1)
        case Recorded(Missed) => SlotCounts(0, 0, 1, 0)
        case Recorded(Succeeded(_, _, _)) => SlotCounts(1, 1, 0, 0)
        case Recorded(Failed(_, _, _)) => SlotCounts(1, 0, 0, 0);
      Add(CountSlots(slots[..|slots| - 1]), one)
  }

  /** The cycle statistics over all scopes. */
  datatype CycleStats = CycleStats(expected: nat, counts: SlotCounts, covered: nat, gap: nat)

  function Statistics(s: Schedule, scopes: seq<seq<Cycle>>, until: int): CycleStats
    requires s.Ok()
    decreases |scopes|
  {
    if scopes == [] then CycleStats(0, SlotCounts(0, 0, 0, 0), 0, 0)
    else
      var rest := Statistics(s, scopes[..|scopes| - 1], until);
      var slots := Slots(s, scopes[|scopes| - 1], until);
      var counts, gap := CountSlots(slots), MaximumGap(Unexplained(slots));
      CycleStats(rest.expected + |slots|, Add(rest.counts, counts),
        rest.covered + (if counts.succeeded > 0 then 1 else 0), if gap >= rest.gap then gap else rest.gap)
  }

  lemma {:induction false} CountsAddUp(slots: seq<Slot>)
    ensures var c := CountSlots(slots); c.attempted + c.missed + c.absent == |slots| && c.succeeded <= c.attempted
    decreases |slots|
  {
    if slots != [] { CountsAddUp(slots[..|slots| - 1]); }
  }

  predicate Succeeds(slot: Slot) { slot.Recorded? && slot.outcome.Succeeded? }

  predicate Misses(slot: Slot) { slot.Recorded? && slot.outcome == Missed }

  /** The positions among the first slots that satisfy a test. */
  function Where(slots: seq<Slot>, test: Slot -> bool): set<nat> { set i: nat | i < |slots| && test(slots[i]) }

  lemma {:induction false} WhereGrows(slots: seq<Slot>, test: Slot -> bool)
    requires slots != []
    ensures var front, last := slots[..|slots| - 1], |slots| - 1;
      |Where(slots, test)| == |Where(front, test)| + if test(slots[last]) then 1 else 0
  {
    var front, last := slots[..|slots| - 1], |slots| - 1;
    assert Where(slots, test) == Where(front, test) + if test(slots[last]) then {last} else {};
  }

  /** The filtered counts are the numbers of slots that pass each filter. */
  lemma {:induction false} CountsAreCardinalities(slots: seq<Slot>)
    ensures var c := CountSlots(slots);
      && c.attempted == |Where(slots, Attempts)| && c.succeeded == |Where(slots, Succeeds)|
      && c.missed == |Where(slots, Misses)| && c.absent == |Where(slots, slot => slot == Absent)|
    decreases |slots|
  {
    if slots != [] {
      CountsAreCardinalities(slots[..|slots| - 1]);
      WhereGrows(slots, Attempts);
      WhereGrows(slots, Succeeds);
      WhereGrows(slots, Misses);
      WhereGrows(slots, slot => slot == Absent);
    }
  }

  lemma {:induction false} OneMore(n: nat, c: nat)
    ensures n * c + c == (n + 1) * c
  {
  }

  /** Every expected slot of every scope is attempted, missed or absent. */
  lemma {:induction false} SlotsAreConserved(s: Schedule, scopes: seq<seq<Cycle>>, until: int)
    requires s.Ok()
    ensures var t := Statistics(s, scopes, until);
      && t.expected == |scopes| * SlotCount(s, until)
      && t.counts.attempted + t.counts.missed + t.counts.absent == t.expected
      && t.counts.succeeded <= t.counts.attempted && t.covered <= |scopes|
    decreases |scopes|
  {
    if scopes != [] {
      var front, n := scopes[..|scopes| - 1], |scopes| - 1;
      SlotsAreConserved(s, front, until);
      CountsAddUp(Slots(s, scopes[n], until));
      OneMore(n, SlotCount(s, until));
      StatisticsStep(s, scopes, until);
    }
  }

  lemma {:induction false} StatisticsStep(s: Schedule, scopes: seq<seq<Cycle>>, until: int)
    requires s.Ok() && scopes != []
    ensures var t, rest := Statistics(s, scopes, until), Statistics(s, scopes[..|scopes| - 1], until);
      var slots := Slots(s, scopes[|scopes| - 1], until);
      && t.expected == rest.expected + SlotCount(s, until) && t.counts == Add(rest.counts, CountSlots(slots))
      && t.covered <= rest.covered + 1 && |slots| == SlotCount(s, until)
  {
  }

  lemma {:induction false} GapCoversScope(s: Schedule, scopes: seq<seq<Cycle>>, until: int, k: nat)
    requires s.Ok() && k < |scopes|
    ensures MaximumGap(Unexplained(Slots(s, scopes[k], until))) <= Statistics(s, scopes, until).gap
    decreases |scopes|
  {
    if k < |scopes| - 1 { GapCoversScope(s, scopes[..|scopes| - 1], until, k); }
  }

  /** The scopes with at least one successful slot. */
  function Covered(s: Schedule, scopes: seq<seq<Cycle>>, until: int): set<nat>
    requires s.Ok()
  {
    set k: nat | k < |scopes| && CountSlots(Slots(s, scopes[k], until)).succeeded > 0
  }

  lemma {:induction false} CoveredStep(s: Schedule, scopes: seq<seq<Cycle>>, until: int)
    requires s.Ok() && scopes != []
    ensures var n := |scopes| - 1;
      var front := Covered(s, scopes[..n], until);
      && n !in front
      && Covered(s, scopes, until) ==
         if CountSlots(Slots(s, scopes[n], until)).succeeded > 0 then front + {n} else front
  {
  }

  /** `COUNT(DISTINCT scope_key) FILTER (...)` counts exactly those scopes. */
  lemma {:induction false} CoverageIsExact(s: Schedule, scopes: seq<seq<Cycle>>, until: int)
    requires s.Ok()
    ensures Statistics(s, scopes, until).covered == |Covered(s, scopes, until)|
    decreases |scopes|
  {
    if scopes != [] {
      CoverageIsExact(s, scopes[..|scopes| - 1], until);
      CoveredStep(s, scopes, until);
    }
  }

  /** The reported gap is the gap of some scope. */
  lemma {:induction false} GapIsReached(s: Schedule, scopes: seq<seq<Cycle>>, until: int) returns (k: nat)
    requires s.Ok() && Statistics(s, scopes, until).gap > 0
    ensures k < |scopes| && MaximumGap(Unexplained(Slots(s, scopes[k], until))) == Statistics(s, scopes, until).gap
    decreases |scopes|
  {
    k := |scopes| - 1;
    if MaximumGap(Unexplained(Slots(s, scopes[k], until))) != Statistics(s, scopes, until).gap {
      k := GapIsReached(s, scopes[..k], until);
    }
  }

  // ----- evaluate_observation -----

  datatype Status = Pass | Fail | NotObserved

  datatype Safety = Safety(
    readOnlyViolations: nat, orderRouteAttempts: nat, secretLeaks: nat,
    integrityFailures: nat, failClosedViolations: nat, prohibitedDataModes: nat)

  datatype Evidence = Evidence(
    live: bool, started: int, until: int, baselineMatches: bool, policyMatches: bool, intervalSeconds: nat,
    scopeCount: nat, coveredScopes: nat, expected: nat, attempted: nat, successful: nat, linked: nat, schemaValid: nat,
    maximumGapSeconds: Option<real>, p95: Option<real>, p99: Option<real>, safety: Safety, scenarios: map<string, bool>)

  datatype Policy = Policy(
    minimumElapsedSeconds: nat, minimumAttemptRate: real, minimumSuccessRate: real, gapMultiplier: real,
    maximumP95: real, maximumP99: real, mandatory: seq<string>)
  {
    predicate Ok() {
      && 0.0 <= minimumAttemptRate <= 1.0 && 0.0 <= minimumSuccessRate <= 1.0 && 1.0 <= gapMultiplier <= 24.0
      && mandatory != []
    }
  }

  function Rate(numerator: nat, denominator: nat): Option<real> {
    if denominator == 0 then None
    else
      var rate := numerator as real / denominator as real;
      Some(if rate <= 1.0 then rate else 1.0)
  }

  function MinimumOptional(actual: Option<real>, threshold: real): Status {
    if actual.None? then NotObserved else if actual.value >= threshold then Pass else Fail
  }

  function MaximumOptional(actual: Option<real>, threshold: real): Status {
    if actual.None? then NotObserved else if actual.value <= threshold then Pass else Fail
  }

  function Whether(actual: bool): Status { if actual then Pass else Fail }

  function CountMatch(actual: nat, expected: nat): Status {
    if expected == 0 then NotObserved else if actual == expected then Pass else Fail
  }

  function Coverage(scopeCount: nat, covered: nat): Status {
    if scopeCount == 0 then NotObserved else if covered == scopeCount then Pass else Fail
  }

  function Latency(e: Evidence, p: Policy): Status {
    if e.p95.None? || e.p99.None? then NotObserved
    else if e.p95.value <= p.maximumP95 && e.p99.value <= p.maximumP99 then Pass else Fail
  }

  function ScenarioStatus(e: Evidence, scenario: string): Status {
    if scenario !in e.scenarios then NotObserved else if e.scenarios[scenario] then Pass else Fail
  }

  function ElapsedSeconds(e: Evidence): nat {
    if e.until < e.started then 0 else DivNonNegative(e.until - e.started, TICKS_PER_SECOND)
  }

  function GapLimit(e: Evidence, p: Policy): real { e.intervalSeconds as real * p.gapMultiplier }

  function HeadCriteria(e: Evidence, p: Policy): seq<Status> {
    [ if ElapsedSeconds(e) >= p.minimumElapsedSeconds then Pass else NotObserved,
      Whether(e.live),
      Whether(e.baselineMatches && e.policyMatches),
      Coverage(e.scopeCount, e.coveredScopes),
      MinimumOptional(Rate(e.attempted, e.expected), p.minimumAttemptRate),
      MinimumOptional(Rate(e.successful, e.attempted), p.minimumSuccessRate),
      CountMatch(e.linked, e.successful),
      CountMatch(e.schemaValid, e.successful),
      MaximumOptional(e.maximumGapSeconds, GapLimit(e, p)),
      Latency(e, p),
      Whether(e.safety.readOnlyViolations == 0),
      Whether(e.safety.orderRouteAttempts == 0),
      Whether(e.safety.secretLeaks == 0),
      Whether(e.safety.integrityFailures == 0),
      Whether(e.safety.failClosedViolations == 0),
      Whether(e.safety.prohibitedDataModes == 0) ]
  }

  function Criteria(e: Evidence, p: Policy): seq<Status> {
    HeadCriteria(e, p) + seq(|p.mandatory|, i requires 0 <= i < |p.mandatory| => ScenarioStatus(e, p.mandatory[i]))
  }

  function Overall(criteria: seq<Status>): Status {
    if Fail in criteria then Fail else if NotObserved in criteria then NotObserved else Pass
  }

  predicate GatePassed(e: Evidence, p: Policy) {
    Overall(Criteria(e, p)) == Pass && forall i | 0 <= i < |Criteria(e, p)| :: Criteria(e, p)[i] == Pass
  }

  predicate RateAtLeast(numerator: nat, denominator: nat, threshold: real) {
    denominator > 0 && numerator as real >= threshold * denominator as real
  }

  /** The conditions on counts, rates, gaps, latency and safety. */
  predicate AcceptableCounts(e: Evidence, p: Policy) {
    && e.until - e.started >= p.minimumElapsedSeconds * TICKS_PER_SECOND && e.started <= e.until
    && e.live && e.baselineMatches && e.policyMatches
    && e.scopeCount == e.coveredScopes > 0
    && RateAtLeast(e.attempted, e.expected, p.minimumAttemptRate)
    && RateAtLeast(e.successful, e.attempted, p.minimumSuccessRate)
    && e.linked == e.schemaValid == e.successful > 0
    && e.maximumGapSeconds.Some? && e.maximumGapSeconds.value <= GapLimit(e, p)
    && e.p95.Some? && e.p99.Some? && e.p95.value <= p.maximumP95 && e.p99.value <= p.maximumP99
    && e.safety == Safety(0, 0, 0, 0, 0, 0)
  }

  /** What a passed gate means, in the evidence's own terms. */
  predicate Acceptable(e: Evidence, p: Policy) {
    && AcceptableCounts(e, p)
    && forall i | 0 <= i < |p.mandatory| :: p.mandatory[i] in e.scenarios && e.scenarios[p.mandatory[i]]
  }

  lemma {:induction false} RateMeets(numerator: nat, denominator: nat, threshold: real)
    requires 0.0 <= threshold <= 1.0
    ensures MinimumOptional(Rate(numerator, denominator), threshold) == Pass <==>
            RateAtLeast(numerator, denominator, threshold)
  {
    if denominator > 0 { Quotient(numerator as real, denominator as real, threshold); }
  }

  lemma {:induction false} Quotient(a: real, b: real, t: real)
    requires b > 0.0
    ensures a / b >= t <==> a >= t * b
  {
    var q := a / b;
    assert q * b == a;
    if q >= t { assert (q - t) * b >= 0.0; assert (q - t) * b == a - t * b; }
    else { assert (t - q) * b > 0.0; assert (t - q) * b == t * b - a; }
  }

  lemma {:induction false} ElapsedMeets(e: Evidence, n: nat)
    ensures e.started <= e.until ==>
      (ElapsedSeconds(e) >= n <==> e.until - e.started >= n * TICKS_PER_SECOND)
  {
    if e.started <= e.until {
      var q := ElapsedSeconds(e);
      MulOrder(TICKS_PER_SECOND, n, q);
      MulOrder(TICKS_PER_SECOND, q, n);
    }
  }

  lemma {:induction false} AllPass(criteria: seq<Status>)
    ensures (Overall(criteria) == Pass && forall i | 0 <= i < |criteria| :: criteria[i] == Pass) <==>
            forall i | 0 <= i < |criteria| :: criteria[i] == Pass
    ensures Overall(criteria) == Fail <==> exists i :: 0 <= i < |criteria| && criteria[i] == Fail
  {
  }

  predicate HeadPasses(e: Evidence, p: Policy) {
    && ElapsedSeconds(e) >= p.minimumElapsedSeconds && e.live && e.baselineMatches && e.policyMatches
    && Coverage(e.scopeCount, e.coveredScopes) == Pass
    && MinimumOptional(Rate(e.attempted, e.expected), p.minimumAttemptRate) == Pass
    && MinimumOptional(Rate(e.successful, e.attempted), p.minimumSuccessRate) == Pass
    && CountMatch(e.linked, e.successful) == Pass && CountMatch(e.schemaValid, e.successful) == Pass
    && MaximumOptional(e.maximumGapSeconds, GapLimit(e, p)) == Pass
    && Latency(e, p) == Pass && e.safety == Safety(0, 0, 0, 0, 0, 0)
  }

  lemma {:induction false} CriteriaSplit(e: Evidence, p: Policy)
    ensures (forall i | 0 <= i < |Criteria(e, p)| :: Criteria(e, p)[i] == Pass) <==>
      HeadPasses(e, p) && forall i | 0 <= i < |p.mandatory| :: ScenarioStatus(e, p.mandatory[i]) == Pass
  {
    var all := Criteria(e, p);
    assert |all| == 16 + |p.mandatory|;
    assert forall i | 0 <= i < |p.mandatory| :: all[16 + i] == ScenarioStatus(e, p.mandatory[i]);
    if forall i | 0 <= i < |all| :: all[i] == Pass {
      assert all[0] == all[1] == all[2] == all[3] == all[4] == all[5] == all[6] == all[7] == Pass;
      assert all[8] == all[9] == all[10] == all[11] == all[12] == all[13] == all[14] == all[15] == Pass;
    }
  }

  lemma {:induction false} CountsExact(e: Evidence, p: Policy)
    requires p.Ok() && e.started <= e.until
    ensures HeadPasses(e, p) <==> AcceptableCounts(e, p)
  {
    ElapsedMeets(e, p.minimumElapsedSeconds);
    RateMeets(e.attempted, e.expected, p.minimumAttemptRate);
    RateMeets(e.successful, e.attempted, p.minimumSuccessRate);
  }

  /** The gate passes exactly when the evidence is acceptable.  `started` may
      not lie after `until`: evidence like that is refused beforehand. */
  lemma {:induction false} GateExact(e: Evidence, p: Policy)
    requires p.Ok() && e.started <= e.until
    ensures GatePassed(e, p) <==> Acceptable(e, p)
  {
    AllPass(Criteria(e, p));
    CriteriaSplit(e, p);
    CountsExact(e, p);
  }

  // ----- when the gate fails, rather than waits -----

  predicate RateBelow(numerator: nat, denominator: nat, threshold: real) {
    denominator > 0 && (numerator as real) < threshold * denominator as real
  }

  /** Observed evidence against the campaign; what was not observed, a campaign
      that is too short included, is none. */
  predicate Unacceptable(e: Evidence, p: Policy) {
    || !e.live || !e.baselineMatches || !e.policyMatches
    || (e.scopeCount > 0 && e.coveredScopes != e.scopeCount)
    || RateBelow(e.attempted, e.expected, p.minimumAttemptRate)
    || RateBelow(e.successful, e.attempted, p.minimumSuccessRate)
    || (e.successful > 0 && (e.linked != e.successful || e.schemaValid != e.successful))
    || (e.maximumGapSeconds.Some? && e.maximumGapSeconds.value > e.intervalSeconds as real * p.gapMultiplier)
    || (e.p95.Some? && e.p99.Some? && (e.p95.value > p.maximumP95 || e.p99.value > p.maximumP99))
    || e.safety != Safety(0, 0, 0, 0, 0, 0)
  }

  predicate ScenarioRefuted(e: Evidence, p: Policy) {
    exists i | 0 <= i < |p.mandatory| :: p.mandatory[i] in e.scenarios && !e.scenarios[p.mandatory[i]]
  }

  lemma {:induction false} RateFails(numerator: nat, denominator: nat, threshold: real)
    requires 0.0 <= threshold <= 1.0
    ensures MinimumOptional(Rate(numerator, denominator), threshold) == Fail <==>
            RateBelow(numerator, denominator, threshold)
  {
    if denominator > 0 { Quotient(numerator as real, denominator as real, threshold); }
  }

  lemma {:induction false} HeadFails(e: Evidence, p: Policy)
    requires p.Ok()
    ensures Fail in HeadCriteria(e, p) <==> Unacceptable(e, p)
  {
    RateFails(e.attempted, e.expected, p.minimumAttemptRate);
    RateFails(e.successful, e.attempted, p.minimumSuccessRate);
  }

  lemma {:induction false} ScenarioFails(e: Evidence, p: Policy)
    ensures Fail in Criteria(e, p) <==> Fail in HeadCriteria(e, p) || ScenarioRefuted(e, p)
  {
    var all, head := Criteria(e, p), HeadCriteria(e, p);
    forall i | 0 <= i < |p.mandatory| ensures all[|head| + i] == ScenarioStatus(e, p.mandatory[i]) { }
    if ScenarioRefuted(e, p) {
      var i :| 0 <= i < |p.mandatory| && p.mandatory[i] in e.scenarios && !e.scenarios[p.mandatory[i]];
      assert all[|head| + i] == Fail;
    }
  }

  /** The three verdicts: failed exactly on observed evidence against the
      campaign, passed exactly on acceptable evidence, otherwise not observed. */
  lemma {:induction false} VerdictExact(e: Evidence, p: Policy)
    requires p.Ok() && e.started <= e.until
    ensures Overall(Criteria(e, p)) == Fail <==> Unacceptable(e, p) || ScenarioRefuted(e, p)
    ensures Overall(Criteria(e, p)) == Pass <==> Acceptable(e, p)
  {
    HeadFails(e, p);
    ScenarioFails(e, p);
    GateExact(e, p);
    AllPass(Criteria(e, p));
    if Overall(Criteria(e, p)) == Pass {
      forall i | 0 <= i < |Criteria(e, p)| ensures Criteria(e, p)[i] == Pass { assert Criteria(e, p)[i] in Criteria(e, p); }
    }
  }

  // ----- the query, told by the rows of a ledger -----

  /** The slots of the series are those expected by the cutoff. */
  lemma {:induction false} SlotCountMeans(s: Schedule, until: int, i: nat)
    requires s.Ok()
    ensures i < SlotCount(s, until) <==> s.start + s.interval * (i + 1) <= until
  {
    var n := SlotCount(s, until);
    MulOrder(s.interval, i + 1, n);
    MulOrder(s.interval, n, i + 1);
    if until < s.start { MulAtLeast(s.interval, i + 1); }
  }

  /** The scheduler called the executor in slot `i`, whatever came of it. */
  predicate WasAttempted(rows: seq<Cycle>, i: nat) {
    i < |rows| && (rows[i].outcome.Succeeded? || rows[i].outcome.Failed?)
  }

  /** No attempt in `n` consecutive slots. */
  predicate Pause(rows: seq<Cycle>, lo: nat, n: nat) { forall i: nat | lo <= i < lo + n :: !WasAttempted(rows, i) }

  lemma {:induction false} FlagExact(h: CycleHash, s: Schedule, rows: seq<Cycle>, clock: int, until: int, i: nat)
    requires s.Ok() && LedgerOk(h, s, rows, clock) && i < SlotCount(s, until)
    ensures Unexplained(Slots(s, rows, until))[i] <==> !WasAttempted(rows, i)
  {
    JoinExact(h, s, rows, clock, i);
  }

  /** The gap of a scope is its longest pause, in slots up to the cutoff. */
  lemma {:induction false} GapIsLongestPause(
    h: CycleHash, s: Schedule, rows: seq<Cycle>, clock: int, until: int, n: nat)
    requires s.Ok() && LedgerOk(h, s, rows, clock)
    ensures n <= MaximumGap(Unexplained(Slots(s, rows, until))) <==>
            exists lo: nat :: lo + n <= SlotCount(s, until) && Pause(rows, lo, n)
  {
    var flags := Unexplained(Slots(s, rows, until));
    GroupingIsLongestRun(flags, n);
    forall i: nat | i < |flags| ensures flags[i] <==> !WasAttempted(rows, i) { FlagExact(h, s, rows, clock, until, i); }
    if HasRun(flags, n) {
      var lo: nat, hi: nat :| lo <= hi <= |flags| && hi == lo + n && AllTrue(flags, lo, hi);
      assert Pause(rows, lo, n);
    }
    if lo: nat :| lo + n <= SlotCount(s, until) && Pause(rows, lo, n) {
      assert AllTrue(flags, lo, lo + n);
    }
  }

  ghost predicate ScopesOk(h: CycleHash, s: Schedule, scopes: seq<seq<Cycle>>, clock: int) {
    forall k | 0 <= k < |scopes| :: LedgerOk(h, s, scopes[k], clock)
  }

  predicate ScopePauses(s: Schedule, rows: seq<Cycle>, until: int, n: nat)
    requires s.Ok()
  {
    exists lo: nat | lo <= SlotCount(s, until) :: lo + n <= SlotCount(s, until) && Pause(rows, lo, n)
  }

  /** The reported gap is the longest pause of any scope. */
  lemma {:induction false} ReportedGapExact(
    h: CycleHash, s: Schedule, scopes: seq<seq<Cycle>>, clock: int, until: int, n: nat)
    requires s.Ok() && ScopesOk(h, s, scopes, clock) && n > 0
    ensures n <= Statistics(s, scopes, until).gap <==>
            exists k | 0 <= k < |scopes| :: ScopePauses(s, scopes[k], until, n)
  {
    if n <= Statistics(s, scopes, until).gap {
      var k := GapIsReached(s, scopes, until);
      GapIsLongestPause(h, s, scopes[k], clock, until, n);
      assert ScopePauses(s, scopes[k], until, n);
    }
    if k :| 0 <= k < |scopes| && ScopePauses(s, scopes[k], until, n) {
      GapIsLongestPause(h, s, scopes[k], clock, until, n);
      GapCoversScope(s, scopes, until, k);
    }
  }

  /** The four counts of a scope are the numbers of its rows of each kind among
      the slots up to the cutoff; the rest are absent. */
  lemma {:induction false} RowsAreCounted(h: CycleHash, s: Schedule, rows: seq<Cycle>, clock: int, until: int)
    requires s.Ok() && LedgerOk(h, s, rows, clock)
    ensures var c, n := CountSlots(Slots(s, rows, until)), SlotCount(s, until);
      && c.attempted == |(set i: nat | i < n && WasAttempted(rows, i))|
      && c.succeeded == |(set i: nat | i < n && i < |rows| && rows[i].outcome.Succeeded?)|
      && c.missed == |(set i: nat | i < n && i < |rows| && rows[i].outcome.Missed?)|
      && c.absent == n - c.attempted - c.missed
  {
    var slots, n := Slots(s, rows, until), SlotCount(s, until);
    CountsAreCardinalities(slots);
    CountsAddUp(slots);
    forall i: nat | i < n ensures slots[i] == if i < |rows| then Recorded(rows[i].outcome) else Absent {
      JoinExact(h, s, rows, clock, i);
    }
    assert Where(slots, Attempts) == (set i: nat | i < n && WasAttempted(rows, i));
    assert Where(slots, Succeeds) == (set i: nat | i < n && i < |rows| && rows[i].outcome.Succeeded?);
    assert Where(slots, Misses) == (set i: nat | i < n && i < |rows| && rows[i].outcome.Missed?);
  }

  // ----- the gate over real ledgers -----

  /** The evidence was computed from these ledgers by the slot query. */
  predicate MeasuredFrom(e: Evidence, s: Schedule, scopes: seq<seq<Cycle>>)
    requires s.Ok()
  {
    var t := Statistics(s, scopes, e.until);
    && e.started == s.start && e.intervalSeconds * TICKS_PER_SECOND == s.interval
    && e.scopeCount == |scopes| && e.coveredScopes == t.covered
    && e.expected == t.expected && e.attempted == t.counts.attempted && e.successful == t.counts.succeeded
    && e.maximumGapSeconds == Some((t.gap * e.intervalSeconds) as real)
  }

  lemma {:induction false} GapInSlots(gap: nat, interval: nat, multiplier: real)
    requires interval > 0 && (gap * interval) as real <= interval as real * multiplier
    ensures gap <= multiplier.Floor
  {
    assert (gap * interval) as real == gap as real * interval as real;
    assert gap as real * interval as real <= multiplier * interval as real;
    Quotient(multiplier * interval as real, interval as real, gap as real);
    Cancel(multiplier, interval as real);
    assert gap as real <= multiplier;
  }

  lemma {:induction false} Cancel(x: real, b: real)
    requires b > 0.0
    ensures x * b / b == x
  {
  }

  lemma {:induction false} PassChecksGap(e: Evidence, p: Policy)
    requires GatePassed(e, p)
    ensures MaximumOptional(e.maximumGapSeconds, GapLimit(e, p)) == Pass
  {
    assert Criteria(e, p)[8] == MaximumOptional(e.maximumGapSeconds, GapLimit(e, p));
  }

  lemma {:induction false} LimitBoundsGap(e: Evidence, p: Policy, gap: nat)
    requires MaximumOptional(e.maximumGapSeconds, GapLimit(e, p)) == Pass
    requires e.intervalSeconds > 0 && e.maximumGapSeconds == Some((gap * e.intervalSeconds) as real)
    ensures gap <= p.gapMultiplier.Floor
  {
    GapInSlots(gap, e.intervalSeconds, p.gapMultiplier);
  }

  lemma {:induction false} PassBoundsGap(s: Schedule, scopes: seq<seq<Cycle>>, e: Evidence, p: Policy)
    requires s.Ok() && p.Ok() && e.started <= e.until && MeasuredFrom(e, s, scopes) && GatePassed(e, p)
    ensures Statistics(s, scopes, e.until).gap <= p.gapMultiplier.Floor
  {
    PassChecksGap(e, p);
    LimitBoundsGap(e, p, Statistics(s, scopes, e.until).gap);
  }

  lemma {:induction false} ShortGapsAttempt(
    h: CycleHash, s: Schedule, rows: seq<Cycle>, clock: int, until: int, lo: nat, width: nat) returns (i: nat)
    requires s.Ok() && LedgerOk(h, s, rows, clock) && lo + width <= SlotCount(s, until)
    requires MaximumGap(Unexplained(Slots(s, rows, until))) < width
    ensures lo <= i < lo + width && i < |rows| && rows[i].sequenceNo == i + 1 && rows[i].outcome.Attempted()
  {
    var flags := Unexplained(Slots(s, rows, until));
    GroupingIsLongestRun(flags, width);
    assert !AllTrue(flags, lo, lo + width);
    i :| lo <= i < lo + width && !flags[i];
    JoinExact(h, s, rows, clock, i);
    assert RowOk(h, s, rows, i, clock);
  }

  /** A passed gate promises that in every scope, any floor(multiplier) + 1
      consecutive slots up to the cutoff contain an attempted cycle. */
  lemma {:induction false} PassMeansAttempts(
    h: CycleHash, s: Schedule, scopes: seq<seq<Cycle>>, clock: int, e: Evidence, p: Policy, k: nat, lo: nat)
    returns (i: nat)
    requires s.Ok() && p.Ok() && e.started <= e.until && MeasuredFrom(e, s, scopes) && GatePassed(e, p)
    requires k < |scopes| && LedgerOk(h, s, scopes[k], clock)
    requires lo + p.gapMultiplier.Floor + 1 <= SlotCount(s, e.until)
    ensures lo <= i < lo + p.gapMultiplier.Floor + 1 && i < |scopes[k]|
    ensures scopes[k][i].sequenceNo == i + 1 && scopes[k][i].outcome.Attempted()
  {
    PassBoundsGap(s, scopes, e, p);
    GapCoversScope(s, scopes, e.until, k);
    i := ShortGapsAttempt(h, s, scopes[k], clock, e.until, lo, p.gapMultiplier.Floor + 1);
  }
}

/**
 The frozen slot schedule: `run_cycle` records each slot of a scope exactly
 once, as success, failure or missed.  Times are integers (microseconds); one
 call is one database transaction, so a failed call leaves nothing behind.
 */
module SlotSchedule {
  import opened Wrappers
  import opened EvidenceModel

  datatype Schedule = Schedule(start: int, end: int, interval: int)
  {
    /** The campaign row's own constraints. */
    predicate Ok() { interval > 0 && start <= end }

    function ExpectedAt(n: int): int { start + interval * n }

    function SlotEnd(n: int): int { ExpectedAt(n) + interval }

    /** The last slot that starts before the campaign's end. */
    function LastSlot(): int
      requires Ok()
    {
      (end - start) / interval
    }
  }

  datatype Outcome =
    | Succeeded(startedAt: int, finishedAt: int, evidence: nat)
    | Failed(startedAt: int, finishedAt: int, code: string)
    | Missed
  {
    predicate Attempted() { !Missed? }
  }

  datatype Cycle = Cycle(sequenceNo: int, expectedAt: int, outcome: Outcome, previousHash: Option<Digest>, contentHash: Digest)

  /** SHA-256 of the row's canonical payload and its predecessor's hash. */
  type CycleHash = (int, int, Outcome, Option<Digest>) -> Digest

  function Row(h: CycleHash, s: Schedule, rows: seq<Cycle>, outcome: Outcome): Cycle {
    var n := |rows| + 1;
    var previous := if rows == [] then None else Some(rows[|rows| - 1].contentHash);
    Cycle(n, s.ExpectedAt(n), outcome, previous, h(n, s.ExpectedAt(n), outcome, previous))
  }

  // ----- where the loop stops -----

  function CeilDiv(a: int, b: int): int
    requires b > 0
  {
    -((-a) / b)
  }

  /** The sequence number at which the loop of a call at `now` stops. */
  function EndOfLoop(s: Schedule, n: int, now: int): int
    requires s.Ok()
  {
    var open := CeilDiv(now - s.start, s.interval) - 1;  // the earliest slot not yet expired
    var due := if n >= open then n else open;
    if due <= s.LastSlot() + 1 then due else s.LastSlot() + 1
  }

  lemma {:induction false} DivBounds(a: int, b: int)
    requires b > 0
    ensures b * (a / b) <= a < b * (a / b) + b
  {
  }

  lemma {:induction false} MulAtLeast(a: int, d: int)
    requires a > 0 && d >= 1
    ensures a * d >= a
  {
  }

  lemma {:induction false} MulOrder(a: int, x: int, y: int)
    requires a > 0
    ensures x <= y <==> a * x <= a * y
    ensures x < y ==> a * x + a <= a * y
  {
    assert a * y - a * x == a * (y - x);
    assert a * x - a * y == a * (x - y);
    if x < y { MulAtLeast(a, y - x); }
    if y < x { MulAtLeast(a, x - y); }
  }

  lemma {:induction false} WithinSchedule(s: Schedule, n: int)
    requires s.Ok()
    ensures s.ExpectedAt(n) <= s.end <==> n <= s.LastSlot()
  {
    var k := s.LastSlot();
    DivBounds(s.end - s.start, s.interval);
    MulOrder(s.interval, n, k);
    MulOrder(s.interval, k, n);
  }

  lemma {:induction false} ExpiredSlot(s: Schedule, n: int, now: int)
    requires s.Ok()
    ensures now > s.SlotEnd(n) <==> n < CeilDiv(now - s.start, s.interval) - 1
  {
    var a := now - s.start;
    var q := (-a) / s.interval;
    DivBounds(-a, s.interval);
    MulOrder(s.interval, n + 1, -q);
    MulOrder(s.interval, -q, n + 1);
    assert s.interval * -q == -(s.interval * q);
    assert s.SlotEnd(n) - s.start == s.interval * (n + 1);
  }

  lemma {:induction false} NextSlot(s: Schedule, n: int)
    ensures s.ExpectedAt(n + 1) == s.SlotEnd(n)
  {
  }

  /** The closed form is where the loop stops: every slot before it is inside
      the campaign and expired, and it is outside or not expired. */
  lemma {:induction false} LoopStops(s: Schedule, n: int, now: int)
    requires s.Ok() && n <= s.LastSlot() + 1
    ensures var m := EndOfLoop(s, n, now);
      && n <= m <= s.LastSlot() + 1
      && (m <= s.LastSlot() ==> s.ExpectedAt(m) <= s.end && now <= s.SlotEnd(m))
      && (m == s.LastSlot() + 1 ==> s.ExpectedAt(m) > s.end)
      && forall k | n <= k < m :: s.ExpectedAt(k) <= s.end && now > s.SlotEnd(k)
  {
    var m := EndOfLoop(s, n, now);
    WithinSchedule(s, m);
    ExpiredSlot(s, m, now);
    forall k | n <= k < m ensures s.ExpectedAt(k) <= s.end && now > s.SlotEnd(k) {
      WithinSchedule(s, k);
      ExpiredSlot(s, k, now);
    }
  }

  // ----- one call -----

  /** The ledger with missed rows appended up to, not including, slot `m`. */
  function WithMissed(h: CycleHash, s: Schedule, rows: seq<Cycle>, m: int): (r: seq<Cycle>)
    ensures rows <= r && |r| == if |rows| + 1 >= m then |rows| else m - 1
    decreases m - |rows|
  {
    if |rows| + 1 >= m then rows else WithMissed(h, s, rows + [Row(h, s, rows, Missed)], m)
  }

  /** What the executor returned or raised, and the database time after it.
      `linked` says that the stored ingestion batch and research input are those
      of this slot and carry the hashes the executor returned. */
  datatype Execution =
    | Executed(evidence: nat, linked: bool, finishedAt: int)
    | Raised(code: string, finishedAt: int)

  datatype RunError = ScheduleComplete | NotDue | RowsRefused

  function AttemptOutcome(now: int, x: Execution): Outcome {
    match x
    case Executed(evidence, _, finishedAt) => Succeeded(now, finishedAt, evidence)
    case Raised(code, finishedAt) => Failed(now, finishedAt, code)
  }

  /** Whether the database takes an attempt's row: not after the final report,
      none that finishes before it starts, no success whose links are invalid. */
  predicate StorageTakes(finalized: bool, now: int, x: Execution) {
    !finalized && now <= x.finishedAt && (x.Executed? ==> x.linked)
  }

  /** The ledger after a call at `now`; `None` when the call raises. */
  function CycleOutcome(h: CycleHash, s: Schedule, rows: seq<Cycle>, finalized: bool, now: int, x: Execution)
    : Result<seq<Cycle>, RunError>
    requires s.Ok()
  {
    var m := EndOfLoop(s, |rows| + 1, now);
    var base := WithMissed(h, s, rows, m);
    if m == s.LastSlot() + 1 then
      if |base| == |rows| then Failure(ScheduleComplete)
      else if finalized then Failure(RowsRefused)
      else Success(base)
    else if now < s.ExpectedAt(m) then Failure(NotDue)
    else if !StorageTakes(finalized, now, x) then Failure(RowsRefused)
    else Success(base + [Row(h, s, base, AttemptOutcome(now, x))])
  }

  // ----- the ledger invariant -----

  predicate RowOk(h: CycleHash, s: Schedule, rows: seq<Cycle>, i: int, clock: int)
    requires 0 <= i < |rows|
  {
    var row, o := rows[i], rows[i].outcome;
    && row.sequenceNo == i + 1 && row.expectedAt == s.ExpectedAt(i + 1) <= s.end
    && row.previousHash == (if i == 0 then None else Some(rows[i - 1].contentHash))
    && row.contentHash == h(row.sequenceNo, row.expectedAt, o, row.previousHash)
    && (o == Missed ==> s.SlotEnd(i + 1) < clock)
    && (o.Attempted() ==> row.expectedAt <= o.startedAt <= s.SlotEnd(i + 1) && o.startedAt <= o.finishedAt && o.startedAt <= clock)
  }

  /** Contiguous from 1, hash-linked, on schedule; by the time `clock` every
      missed slot had expired; every attempt started inside its slot. */
  ghost predicate LedgerOk(h: CycleHash, s: Schedule, rows: seq<Cycle>, clock: int) {
    forall i | 0 <= i < |rows| :: RowOk(h, s, rows, i, clock)
  }

  predicate MayFollow(s: Schedule, rows: seq<Cycle>, outcome: Outcome, clock: int) {
    var n := |rows| + 1;
    && s.ExpectedAt(n) <= s.end
    && (outcome == Missed ==> s.SlotEnd(n) < clock)
    && (outcome.Attempted() ==>
          s.ExpectedAt(n) <= outcome.startedAt <= s.SlotEnd(n) && outcome.startedAt <= outcome.finishedAt &&
          outcome.startedAt <= clock)
  }

  lemma {:induction false} LedgerAppend(h: CycleHash, s: Schedule, rows: seq<Cycle>, outcome: Outcome, clock: int)
    requires LedgerOk(h, s, rows, clock) && MayFollow(s, rows, outcome, clock)
    ensures LedgerOk(h, s, rows + [Row(h, s, rows, outcome)], clock)
  {
    var all := rows + [Row(h, s, rows, outcome)];
    forall i | 0 <= i < |all| ensures RowOk(h, s, all, i, clock) {
      if i < |rows| { assert RowOk(h, s, rows, i, clock); }
    }
  }

  lemma {:induction false} LedgerAges(h: CycleHash, s: Schedule, rows: seq<Cycle>, clock: int, later: int)
    requires LedgerOk(h, s, rows, clock) && clock <= later
    ensures LedgerOk(h, s, rows, later)
  {
    forall i | 0 <= i < |rows| ensures RowOk(h, s, rows, i, later) { assert RowOk(h, s, rows, i, clock); }
  }

  /** A ledger never outgrows its schedule. */
  lemma {:induction false} LedgerFits(h: CycleHash, s: Schedule, rows: seq<Cycle>, clock: int)
    requires s.Ok() && LedgerOk(h, s, rows, clock)
    ensures |rows| <= s.LastSlot()
  {
    if rows != [] {
      assert RowOk(h, s, rows, |rows| - 1, clock);
      WithinSchedule(s, |rows|);
    } else {
      DivBounds(s.end - s.start, s.interval);
      WithinSchedule(s, 0);
    }
  }

  lemma {:induction false} MissedRowsOk(h: CycleHash, s: Schedule, rows: seq<Cycle>, m: int, now: int)
    requires s.Ok() && LedgerOk(h, s, rows, now)
    requires forall k | |rows| + 1 <= k < m :: s.ExpectedAt(k) <= s.end && now > s.SlotEnd(k)
    ensures LedgerOk(h, s, WithMissed(h, s, rows, m), now)
    decreases m - |rows|
  {
    if |rows| + 1 < m {
      LedgerAppend(h, s, rows, Missed, now);
      MissedRowsOk(h, s, rows + [Row(h, s, rows, Missed)], m, now);
    }
  }

  /** Every call, at any later time and with any execution, keeps the ledger. */
  lemma {:induction false} CallKeepsLedger(
    h: CycleHash, s: Schedule, rows: seq<Cycle>, finalized: bool, clock: int, now: int, x: Execution)
    requires s.Ok() && LedgerOk(h, s, rows, clock) && clock <= now
    ensures var r := CycleOutcome(h, s, rows, finalized, now, x);
      r.Success? ==> rows < r.value && LedgerOk(h, s, r.value, now)
  {
    LedgerAges(h, s, rows, clock, now);
    LedgerFits(h, s, rows, clock);
    LoopStops(s, |rows| + 1, now);
    var m := EndOfLoop(s, |rows| + 1, now);
    MissedRowsOk(h, s, rows, m, now);
    var base := WithMissed(h, s, rows, m);
    if CycleOutcome(h, s, rows, finalized, now, x).Success? && m <= s.LastSlot() {
      LedgerAppend(h, s, base, AttemptOutcome(now, x), now);
    }
  }

  /** A recorded call leaves no expired slot unrecorded and records none early. */
  lemma {:induction false} NoExpiredSlotIsLeft(
    h: CycleHash, s: Schedule, rows: seq<Cycle>, finalized: bool, clock: int, now: int, x: Execution, k: int)
    requires s.Ok() && LedgerOk(h, s, rows, clock) && clock <= now
    requires CycleOutcome(h, s, rows, finalized, now, x).Success?
    ensures var after := CycleOutcome(h, s, rows, finalized, now, x).value;
      && (1 <= k && s.ExpectedAt(k) <= s.end && s.SlotEnd(k) < now ==> k <= |after|)
      && (|rows| < k <= |after| ==> s.ExpectedAt(k) <= now)
      && (|rows| < k <= |after| && s.SlotEnd(k) < now ==> after[k - 1].outcome == Missed)
  {
    var n := |rows| + 1;
    var m := EndOfLoop(s, n, now);
    var after := CycleOutcome(h, s, rows, finalized, now, x).value;
    LedgerFits(h, s, rows, clock);
    LoopStops(s, n, now);
    WithinSchedule(s, k);
    ExpiredSlot(s, k, now);
    MulOrder(s.interval, k, m);
    if |rows| < k < m && k <= |after| {
      MissedOutcome(h, s, rows, m, k - 1);
      assert after[k - 1] == WithMissed(h, s, rows, m)[k - 1];
    }
  }

  // ----- the database's own guard, as an independent reference -----

  /** The chain trigger and the table's row constraints, at database time
      `clock`; `linked` is the trigger's verdict on a success row's links. */
  predicate GuardAccepts(
    s: Schedule, rows: seq<Cycle>, finalized: bool, row: Cycle, linked: bool, transactionStart: int, clock: int) {
    && !finalized && (row.outcome.Succeeded? ==> linked)
    && row.expectedAt == s.ExpectedAt(row.sequenceNo) <= s.end
    && (if row.outcome == Missed then clock > row.expectedAt + s.interval
        else
          && transactionStart <= row.outcome.startedAt <= clock
          && row.expectedAt <= row.outcome.startedAt <= row.expectedAt + s.interval
          && row.outcome.finishedAt <= clock + 300_000_000
          && row.outcome.startedAt <= row.outcome.finishedAt)
    && (if rows == [] then row.sequenceNo == 1 && row.previousHash.None?
        else
          && row.sequenceNo == rows[|rows| - 1].sequenceNo + 1
          && row.previousHash == Some(rows[|rows| - 1].contentHash)
          && row.expectedAt > rows[|rows| - 1].expectedAt)
  }

  /** The guard lets every row of a keeping ledger through, and, for rows that
      carry their own hash, nothing else. */
  lemma {:induction false} GuardExact(
    h: CycleHash, s: Schedule, rows: seq<Cycle>, row: Cycle, linked: bool, transactionStart: int, clock: int)
    requires s.Ok() && LedgerOk(h, s, rows, clock)
    requires row.contentHash == h(row.sequenceNo, row.expectedAt, row.outcome, row.previousHash)
    ensures !GuardAccepts(s, rows, true, row, linked, transactionStart, clock)
    ensures GuardAccepts(s, rows, false, row, linked, transactionStart, clock) <==>
      && row == Row(h, s, rows, row.outcome) && MayFollow(s, rows, row.outcome, clock)
      && (row.outcome.Succeeded? ==> linked)
      && (row.outcome.Attempted() ==>
            transactionStart <= row.outcome.startedAt && row.outcome.finishedAt <= clock + 300_000_000)
  {
    if rows != [] {
      assert RowOk(h, s, rows, |rows| - 1, clock);
      MulOrder(s.interval, |rows|, |rows| + 1);
    }
  }

  lemma {:induction false} LedgerPrefix(h: CycleHash, s: Schedule, rows: seq<Cycle>, i: nat, clock: int)
    requires LedgerOk(h, s, rows, clock) && i < |rows|
    ensures LedgerOk(h, s, rows[..i], clock)
    ensures rows[i] == Row(h, s, rows[..i], rows[i].outcome) && MayFollow(s, rows[..i], rows[i].outcome, clock)
  {
    assert RowOk(h, s, rows, i, clock);
    forall j | 0 <= j < i ensures RowOk(h, s, rows[..i], j, clock) { assert RowOk(h, s, rows, j, clock); }
  }

  /** A call's own rows never trip the guard: whatever it inserts, at database
      times not before `now`, passes row by row. */
  lemma {:induction false} InsertsPassGuard(
    h: CycleHash, s: Schedule, rows: seq<Cycle>, clock: int, now: int, x: Execution, i: nat, transactionStart: int, insertedAt: int)
    requires s.Ok() && LedgerOk(h, s, rows, clock) && clock <= now
    requires transactionStart <= now <= insertedAt && x.finishedAt <= insertedAt + 300_000_000
    requires CycleOutcome(h, s, rows, false, now, x).Success?
    requires |rows| <= i < |CycleOutcome(h, s, rows, false, now, x).value|
    ensures var all := CycleOutcome(h, s, rows, false, now, x).value;
      GuardAccepts(s, all[..i], false, all[i], x.Executed? && x.linked, transactionStart, insertedAt)
  {
    var all := CycleOutcome(h, s, rows, false, now, x).value;
    CallKeepsLedger(h, s, rows, false, clock, now, x);
    LedgerAges(h, s, all, now, insertedAt);
    LedgerPrefix(h, s, all, i, insertedAt);
    OutcomeOf(h, s, rows, now, x, i);
    GuardExact(h, s, all[..i], all[i], x.Executed? && x.linked, transactionStart, insertedAt);
  }

  // ----- what one call records, told by the clock alone -----

  /** Slot m has begun, has not ended, and all unrecorded ones before it have. */
  predicate OpenSlot(s: Schedule, n: int, now: int, m: int) {
    && n <= m && s.ExpectedAt(m) <= s.end
    && s.ExpectedAt(m) <= now <= s.SlotEnd(m) && (m > n ==> s.SlotEnd(m - 1) < now)
  }

  lemma {:induction false} OpenSlotIsEnd(s: Schedule, n: int, now: int, m: int)
    requires s.Ok() && n <= s.LastSlot() + 1 && OpenSlot(s, n, now, m)
    ensures EndOfLoop(s, n, now) == m <= s.LastSlot()
  {
    var e := EndOfLoop(s, n, now);
    LoopStops(s, n, now);
    WithinSchedule(s, m);
    assert m < e ==> now > s.SlotEnd(m);
    if e < m { MulOrder(s.interval, e, m - 1); }
  }

  /** With a slot open, the call is recorded unless the report exists, the clock
      went back or a success has invalid links; it then records what the
      execution did in that slot, and every slot before it as missed. */
  lemma {:induction false} OpenSlotIsRecorded(
    h: CycleHash, s: Schedule, rows: seq<Cycle>, finalized: bool, clock: int, now: int, x: Execution, m: int)
    requires s.Ok() && LedgerOk(h, s, rows, clock) && clock <= now && OpenSlot(s, |rows| + 1, now, m)
    ensures var r := CycleOutcome(h, s, rows, finalized, now, x);
      && (r.Success? <==> !finalized && now <= x.finishedAt && (x.Raised? || x.linked))
      && (r.Failure? ==> r.error == RowsRefused)
      && (r.Success? ==>
           && |r.value| == m && rows <= r.value && r.value[m - 1].expectedAt == s.ExpectedAt(m)
           && (x.Raised? ==> r.value[m - 1].outcome == Failed(now, x.finishedAt, x.code))
           && (x.Executed? ==> r.value[m - 1].outcome == Succeeded(now, x.finishedAt, x.evidence))
           && forall k | |rows| <= k < m - 1 :: r.value[k].outcome == Missed)
  {
    LedgerFits(h, s, rows, clock);
    OpenSlotIsEnd(s, |rows| + 1, now, m);
    var base := WithMissed(h, s, rows, m);
    forall k | |rows| <= k < m - 1 ensures base[k].outcome == Missed { MissedOutcome(h, s, rows, m, k); }
  }

  /** Outside any open slot: nothing is left, it is too early, or all that is
      left is recorded as missed. */
  lemma {:induction false} NoSlotIsAttempted(
    h: CycleHash, s: Schedule, rows: seq<Cycle>, finalized: bool, clock: int, now: int, x: Execution)
    requires s.Ok() && LedgerOk(h, s, rows, clock) && clock <= now
    ensures var r, n := CycleOutcome(h, s, rows, finalized, now, x), |rows| + 1;
      && (r == Failure(ScheduleComplete) <==> s.ExpectedAt(n) > s.end)
      && (r == Failure(NotDue) <==> s.ExpectedAt(n) <= s.end && now < s.ExpectedAt(n))
      && (s.ExpectedAt(n) <= s.end && s.SlotEnd(s.LastSlot()) < now ==>
           && (r.Success? <==> !finalized)
           && (r.Success? ==>
                && |r.value| == s.LastSlot() && rows <= r.value
                && forall k | |rows| <= k < |r.value| :: r.value[k].outcome == Missed))
  {
    var n := |rows| + 1;
    LedgerFits(h, s, rows, clock);
    LoopStops(s, n, now);
    var m := EndOfLoop(s, n, now);
    WithinSchedule(s, n);
    WithinSchedule(s, s.LastSlot());
    if m > n { NextSlot(s, m - 1); }
    if s.ExpectedAt(n) <= s.end && s.SlotEnd(s.LastSlot()) < now {
      if m <= s.LastSlot() { MulOrder(s.interval, m, s.LastSlot()); }
      forall k | |rows| <= k < m - 1 ensures WithMissed(h, s, rows, m)[k].outcome == Missed {
        MissedOutcome(h, s, rows, m, k);
      }
    }
  }

  /** The call takes an attempt exactly when the database's guard does, for a row
      inserted later in the same transaction. */
  lemma {:induction false} TakenIffGuarded(
    h: CycleHash, s: Schedule, rows: seq<Cycle>, finalized: bool, clock: int, now: int, x: Execution, m: int,
    transactionStart: int, insertedAt: int)
    requires s.Ok() && LedgerOk(h, s, rows, clock) && clock <= now && OpenSlot(s, |rows| + 1, now, m)
    requires transactionStart <= now <= insertedAt && x.finishedAt <= insertedAt + 300_000_000
    ensures var base := WithMissed(h, s, rows, m);
      CycleOutcome(h, s, rows, finalized, now, x).Success? <==>
      GuardAccepts(s, base, finalized, Row(h, s, base, AttemptOutcome(now, x)), x.Executed? && x.linked,
        transactionStart, insertedAt)
  {
    OpenSlotIsRecorded(h, s, rows, finalized, clock, now, x, m);
    LedgerFits(h, s, rows, clock);
    OpenSlotIsEnd(s, |rows| + 1, now, m);
    LoopStops(s, |rows| + 1, now);
    LedgerAges(h, s, rows, clock, now);
    MissedRowsOk(h, s, rows, m, now);
    var base := WithMissed(h, s, rows, m);
    LedgerAges(h, s, base, now, insertedAt);
    GuardExact(h, s, base, Row(h, s, base, AttemptOutcome(now, x)), x.Executed? && x.linked,
      transactionStart, insertedAt);
  }

  lemma {:induction false} MissedOutcome(h: CycleHash, s: Schedule, rows: seq<Cycle>, m: int, i: nat)
    requires |rows| <= i < |WithMissed(h, s, rows, m)|
    ensures WithMissed(h, s, rows, m)[i].outcome == Missed
    decreases m - |rows|
  {
    if |rows| + 1 < m {
      var next := rows + [Row(h, s, rows, Missed)];
      assert next[|rows|].outcome == Missed;
      if i > |rows| { MissedOutcome(h, s, next, m, i); }
      else { assert WithMissed(h, s, next, m)[i] == next[i]; }
    }
  }

  /** A call appends missed rows and at most one attempt, its own. */
  lemma {:induction false} OutcomeOf(h: CycleHash, s: Schedule, rows: seq<Cycle>, now: int, x: Execution, i: nat)
    requires s.Ok() && CycleOutcome(h, s, rows, false, now, x).Success?
    requires |rows| <= i < |CycleOutcome(h, s, rows, false, now, x).value|
    ensures var o := CycleOutcome(h, s, rows, false, now, x).value[i].outcome;
      o == Missed || (o == AttemptOutcome(now, x) && StorageTakes(false, now, x))
  {
    var m := EndOfLoop(s, |rows| + 1, now);
    if i < |WithMissed(h, s, rows, m)| { MissedOutcome(h, s, rows, m, i); }
  }

  // ----- whole campaigns -----

  datatype Call = Call(now: int, finalized: bool, execution: Execution)

  function Ledger(h: CycleHash, s: Schedule, calls: seq<Call>): seq<Cycle>
    requires s.Ok()
    decreases |calls|
  {
    if calls == [] then []
    else
      var before, call := Ledger(h, s, calls[..|calls| - 1]), calls[|calls| - 1];
      match CycleOutcome(h, s, before, call.finalized, call.now, call.execution)
      case Success(rows) => rows
      case Failure(_) => before
  }

  predicate InOrder(s: Schedule, calls: seq<Call>) {
    forall i | 0 <= i < |calls| :: s.start <= calls[i].now && (i > 0 ==> calls[i - 1].now <= calls[i].now)
  }

  function LastCall(s: Schedule, calls: seq<Call>): int {
    if calls == [] then s.start else calls[|calls| - 1].now
  }

  /** Over every run of calls with a database clock that never goes back: the
      ledger keeps its invariant and only ever grows. */
  lemma {:induction false} RunsKeepLedger(h: CycleHash, s: Schedule, calls: seq<Call>, n: nat)
    requires s.Ok() && InOrder(s, calls) && n <= |calls|
    ensures LedgerOk(h, s, Ledger(h, s, calls), LastCall(s, calls))
    ensures Ledger(h, s, calls[..n]) <= Ledger(h, s, calls)
    decreases |calls|
  {
    if calls != [] {
      var front, call := calls[..|calls| - 1], calls[|calls| - 1];
      RunsKeepLedger(h, s, front, if n < |calls| then n else |front|);
      CallStep(h, s, Ledger(h, s, front), LastCall(s, front), call);
      if n < |calls| { assert front[..n] == calls[..n]; } else { assert calls[..n] == calls; }
    } else {
      assert calls[..n] == calls;
    }
  }

  lemma {:induction false} CallStep(h: CycleHash, s: Schedule, before: seq<Cycle>, clock: int, call: Call)
    requires s.Ok() && LedgerOk(h, s, before, clock) && clock <= call.now
    ensures var after := match CycleOutcome(h, s, before, call.finalized, call.now, call.execution)
        case Success(rows) => rows
        case Failure(_) => before;
      before <= after && LedgerOk(h, s, after, call.now)
  {
    CallKeepsLedger(h, s, before, call.finalized, clock, call.now, call.execution);
    LedgerAges(h, s, before, clock, call.now);
  }

  datatype CycleRun = CycleRun(sequenceNo: int, missedRecorded: nat, attempted: bool)

  /** The loop of `run_cycle`, on the transaction's view of the ledger. */
  method SkipExpired(h: CycleHash, s: Schedule, before: seq<Cycle>, now: int)
    returns (rows: seq<Cycle>, sequenceNo: int, missedCount: nat)
    requires s.Ok() && |before| <= s.LastSlot()
    ensures sequenceNo == EndOfLoop(s, |before| + 1, now)
    ensures rows == WithMissed(h, s, before, sequenceNo) && missedCount == |rows| - |before|
    ensures |rows| == sequenceNo - 1
    ensures missedCount > 0 ==> now > s.ExpectedAt(sequenceNo) && rows[|rows| - 1].outcome == Missed
  {
    ghost var m := EndOfLoop(s, |before| + 1, now);
    LoopStops(s, |before| + 1, now);
    rows, sequenceNo, missedCount := before, |before| + 1, 0;
    while s.ExpectedAt(sequenceNo) <= s.end && now > s.SlotEnd(sequenceNo)
      invariant |before| + 1 <= sequenceNo <= m
      invariant |rows| == sequenceNo - 1 && missedCount == sequenceNo - 1 - |before|
      invariant WithMissed(h, s, rows, m) == WithMissed(h, s, before, m)
      invariant missedCount > 0 ==> rows[|rows| - 1].outcome == Missed && now > s.ExpectedAt(sequenceNo)
      decreases m - sequenceNo
    {
      WithinSchedule(s, sequenceNo);
      ExpiredSlot(s, sequenceNo, now);
      NextSlot(s, sequenceNo);
      rows := rows + [Row(h, s, rows, Missed)];
      sequenceNo := sequenceNo + 1;
      missedCount := missedCount + 1;
    }
    WithinSchedule(s, sequenceNo);
    ExpiredSlot(s, sequenceNo, now);
  }

  class CycleLedger {
    const schedule: Schedule
    const hash: CycleHash
    var cycles: seq<Cycle>
    var finalized: bool
    ghost var clock: int  // the database time of the last call

    ghost predicate Valid()
      reads this
    {
      schedule.Ok() && LedgerOk(hash, schedule, cycles, clock)
    }

    constructor (schedule: Schedule, hash: CycleHash)
      requires schedule.Ok()
      ensures Valid() && cycles == [] && !finalized && this.schedule == schedule && this.hash == hash
      ensures clock == schedule.start
    {
      this.schedule, this.hash := schedule, hash;
      cycles, finalized, clock := [], false, schedule.start;
    }

    /** `run_cycle`: `now` is the database time read at its start, `x` what the
        executor will do if it is called. */
    method RunCycle(now: int, x: Execution) returns (r: Result<CycleRun, RunError>)
      requires Valid() && clock <= now
      modifies this
      ensures Valid() && clock == now && finalized == old(finalized)
      ensures r.Success? <==> CycleOutcome(hash, schedule, old(cycles), finalized, now, x).Success?
      ensures r.Failure? ==>
        cycles == old(cycles) && CycleOutcome(hash, schedule, cycles, finalized, now, x) == Failure(r.error)
      ensures r.Success? ==>
        && CycleOutcome(hash, schedule, old(cycles), finalized, now, x) == Success(cycles)
        && r.value.sequenceNo == |cycles|
        && |cycles| == |old(cycles)| + r.value.missedRecorded + (if r.value.attempted then 1 else 0)
        && r.value.attempted == cycles[|cycles| - 1].outcome.Attempted()
      ensures forall n: int, m: int | n == |old(cycles)| + 1 && OpenSlot(schedule, n, now, m) ::
        && (r.Success? <==> !finalized && now <= x.finishedAt && (x.Raised? || x.linked))
        && (r.Success? ==> r.value == CycleRun(m, m - 1 - |old(cycles)|, true))
      ensures r == Failure(ScheduleComplete) <==> schedule.ExpectedAt(|old(cycles)| + 1) > schedule.end
      ensures r == Failure(NotDue) <==>
        schedule.ExpectedAt(|old(cycles)| + 1) <= schedule.end && now < schedule.ExpectedAt(|old(cycles)| + 1)
      ensures r.Success? && r.value.attempted ==>
        var o := cycles[|cycles| - 1].outcome;
        && o.startedAt == now && o.finishedAt == x.finishedAt && (o.Succeeded? <==> x.Executed?)
        && (x.Executed? ==> o.evidence == x.evidence && x.linked) && (x.Raised? ==> o.code == x.code)
    {
      ghost var before := cycles;
      NoSlotIsAttempted(hash, schedule, cycles, finalized, clock, now, x);
      forall n: int, m: int | n == |cycles| + 1 && OpenSlot(schedule, n, now, m)
        ensures EndOfLoop(schedule, n, now) == m <= schedule.LastSlot()
      {
        LedgerFits(hash, schedule, cycles, clock);
        OpenSlotIsEnd(schedule, n, now, m);
      }
      CallKeepsLedger(hash, schedule, cycles, finalized, clock, now, x);
      LedgerFits(hash, schedule, cycles, clock);
      LoopStops(schedule, |cycles| + 1, now);
      LedgerAges(hash, schedule, cycles, clock, now);
      WithinSchedule(schedule, EndOfLoop(schedule, |cycles| + 1, now));
      clock := now;
      var rows, sequenceNo, missedCount := SkipExpired(hash, schedule, cycles, now);
      if schedule.ExpectedAt(sequenceNo) > schedule.end {
        if missedCount == 0 { return Failure(ScheduleComplete); }
        if finalized { return Failure(RowsRefused); }
        cycles := rows;
        return Success(CycleRun(sequenceNo - 1, missedCount, false));
      }
      // Once a slot was missed its successor has begun, so a call that
      // recorded missed slots never stops here.
      if now < schedule.ExpectedAt(sequenceNo) {
        assert missedCount == 0;
        return Failure(NotDue);
      }
      if !StorageTakes(finalized, now, x) { return Failure(RowsRefused); }
      cycles := rows + [Row(hash, schedule, rows, AttemptOutcome(now, x))];
      return Success(CycleRun(sequenceNo, missedCount, true));
    }
  }
}

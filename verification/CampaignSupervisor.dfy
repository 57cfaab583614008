/**
 The supervisor's view of the schedule: which scopes it finds due, and when it
 can read the campaign's progress at all.
 */
module CampaignSupervisor {
  import opened Wrappers
  import opened SlotSchedule

  /** `ScopeProgress`, as far as scheduling reads it. */
  datatype ScopeProgress = ScopeProgress(sequenceNo: nat, nextExpectedAt: int, lastFinishedAt: Option<int>)

  /** One scope's part of `load_progress`.  A latest row without a finish time
      is refused. */
  function LoadScope(s: Schedule, rows: seq<Cycle>): Option<ScopeProgress> {
    if rows == [] then Some(ScopeProgress(0, s.ExpectedAt(1), None))
    else match rows[|rows| - 1].outcome
      case Missed => None
      case Succeeded(_, finishedAt, _) => Some(ScopeProgress(|rows|, s.ExpectedAt(|rows| + 1), Some(finishedAt)))
      case Failed(_, finishedAt, _) => Some(ScopeProgress(|rows|, s.ExpectedAt(|rows| + 1), Some(finishedAt)))
  }

  /** `CampaignProgress.due_scopes`, for one scope. */
  predicate IsDue(s: Schedule, p: ScopeProgress, now: int, reportStored: bool) {
    !reportStored && p.nextExpectedAt <= s.end && now >= p.nextExpectedAt
  }

  predicate DueNow(s: Schedule, rows: seq<Cycle>, now: int) {
    s.ExpectedAt(|rows| + 1) <= s.end && now >= s.ExpectedAt(|rows| + 1)
  }

  /** What is loaded is the ledger's position, and due on it means: the slot after
      the last row has begun, inside the campaign, and there is no report. */
  lemma {:induction false} LoadedDue(s: Schedule, rows: seq<Cycle>, now: int, reportStored: bool)
    ensures LoadScope(s, rows).None? <==> rows != [] && rows[|rows| - 1].outcome.Missed?
    ensures LoadScope(s, rows).Some? ==>
      var p := LoadScope(s, rows).value;
      && p.sequenceNo == |rows| && p.nextExpectedAt == s.start + s.interval * (|rows| + 1)
      && (rows == [] ==> p.lastFinishedAt.None?)
      && (rows != [] ==> p.lastFinishedAt == Some(rows[|rows| - 1].outcome.finishedAt))
      && (IsDue(s, p, now, reportStored) <==> !reportStored && DueNow(s, rows, now))
  {
  }

  /** Supervisor and runner agree: before the final report a scope is due
      exactly when `run_cycle` at that time has something to record, and then it
      records at least one row unless the database refuses the rows. */
  lemma {:induction false} DueIffRecords(
    h: CycleHash, s: Schedule, rows: seq<Cycle>, clock: int, finalized: bool, now: int, x: Execution)
    requires s.Ok() && LedgerOk(h, s, rows, clock)
    ensures var r := CycleOutcome(h, s, rows, finalized, now, x);
      && (DueNow(s, rows, now) <==> r.Success? || r == Failure(RowsRefused))
      && (StorageTakes(finalized, now, x) ==> (DueNow(s, rows, now) <==> r.Success?))
      && (r.Success? ==> |r.value| > |rows|)
  {
    var n := |rows| + 1;
    LedgerFits(h, s, rows, clock);
    LoopStops(s, n, now);
    var m := EndOfLoop(s, n, now);
    WithinSchedule(s, n);
    if m > n {
      assert s.ExpectedAt(n) <= s.end && now > s.SlotEnd(n);
      NextSlot(s, m - 1);
    }
  }

  /** After one recorded call the scope is due again at the same instant only
      if that instant is exactly the end of the slot just executed. */
  lemma {:induction false} DueAfterCall(
    h: CycleHash, s: Schedule, rows: seq<Cycle>, clock: int, finalized: bool, now: int, x: Execution)
    requires s.Ok() && LedgerOk(h, s, rows, clock) && clock <= now
    requires CycleOutcome(h, s, rows, finalized, now, x).Success?
    ensures var after := CycleOutcome(h, s, rows, finalized, now, x).value;
      DueNow(s, after, now) <==>
        && after[|after| - 1].outcome.Attempted()
        && now == s.SlotEnd(|after|) && s.ExpectedAt(|after| + 1) <= s.end
  {
    var n := |rows| + 1;
    var m := EndOfLoop(s, n, now);
    var after := CycleOutcome(h, s, rows, finalized, now, x).value;
    LedgerFits(h, s, rows, clock);
    LoopStops(s, n, now);
    NextSlot(s, |after|);
    if m == s.LastSlot() + 1 {
      WithinSchedule(s, |after| + 1);
      OutcomeEndsMissed(h, s, rows, m);
    }
  }

  lemma {:induction false} OutcomeEndsMissed(h: CycleHash, s: Schedule, rows: seq<Cycle>, m: int)
    requires |rows| + 1 < m
    ensures var all := WithMissed(h, s, rows, m); all[|all| - 1].outcome == Missed
  {
    MissedOutcome(h, s, rows, m, |WithMissed(h, s, rows, m)| - 1);
  }

  // ----- when progress can be read -----

  /** A call leaves a missed row last only when it has closed the whole schedule. */
  lemma {:induction false} MissedLastMeansFull(
    h: CycleHash, s: Schedule, rows: seq<Cycle>, clock: int, finalized: bool, now: int, x: Execution)
    requires s.Ok() && LedgerOk(h, s, rows, clock) && clock <= now
    requires CycleOutcome(h, s, rows, finalized, now, x).Success?
    ensures var after := CycleOutcome(h, s, rows, finalized, now, x).value;
      after[|after| - 1].outcome == Missed ==> |after| == s.LastSlot()
  {
  }

  lemma {:induction false} ReadableRun(h: CycleHash, s: Schedule, calls: seq<Call>)
    requires s.Ok() && InOrder(s, calls)
    ensures var rows := Ledger(h, s, calls);
      LoadScope(s, rows).None? ==> |rows| == s.LastSlot()
    decreases |calls|
  {
    if calls != [] {
      var front, call := calls[..|calls| - 1], calls[|calls| - 1];
      var before := Ledger(h, s, front);
      ReadableRun(h, s, front);
      RunsKeepLedger(h, s, front, 0);
      if CycleOutcome(h, s, before, call.finalized, call.now, call.execution).Success? {
        MissedLastMeansFull(h, s, before, LastCall(s, front), call.finalized, call.now, call.execution);
      }
    }
  }

  /** A full ledger never changes again. */
  lemma {:induction false} FullLedgerStays(h: CycleHash, s: Schedule, calls: seq<Call>, n: nat)
    requires s.Ok() && InOrder(s, calls) && n <= |calls|
    requires |Ledger(h, s, calls[..n])| == s.LastSlot()
    ensures Ledger(h, s, calls) == Ledger(h, s, calls[..n])
  {
    RunsKeepLedger(h, s, calls, n);
    LedgerFits(h, s, Ledger(h, s, calls), LastCall(s, calls));
  }

  /** Reading progress fails exactly when the very last slot of the schedule
      was recorded as missed, and from then on it always fails: a supervisor
      never finalizes such a campaign. */
  lemma {:induction false} ProgressReadable(h: CycleHash, s: Schedule, calls: seq<Call>, n: nat)
    requires s.Ok() && InOrder(s, calls) && n <= |calls|
    ensures var rows := Ledger(h, s, calls);
      LoadScope(s, rows).None? <==> rows != [] && |rows| == s.LastSlot() && rows[|rows| - 1].outcome == Missed
    ensures LoadScope(s, Ledger(h, s, calls[..n])).None? ==> LoadScope(s, Ledger(h, s, calls)).None?
  {
    ReadableRun(h, s, calls);
    if LoadScope(s, Ledger(h, s, calls[..n])).None? {
      InOrderPrefix(s, calls, n);
      ReadableRun(h, s, calls[..n]);
      FullLedgerStays(h, s, calls, n);
    }
  }

  lemma {:induction false} InOrderPrefix(s: Schedule, calls: seq<Call>, n: nat)
    requires InOrder(s, calls) && n <= |calls|
    ensures InOrder(s, calls[..n])
  {
  }

  /** It does happen: a one-slot campaign whose only call comes too late. */
  lemma {:induction false} ProgressUnreadableExample(h: CycleHash, x: Execution)
    ensures var s, calls := Schedule(0, 60, 60), [Call(121, false, x)];
      s.Ok() && InOrder(s, calls) && LoadScope(s, Ledger(h, s, calls)).None?
  {
    var s := Schedule(0, 60, 60);
    var calls := [Call(121, false, x)];
    assert calls[..0] == [] && Ledger(h, s, []) == [];
    assert EndOfLoop(s, 1, 121) == 2;
    assert WithMissed(h, s, [], 2) == [Row(h, s, [], Missed)];
  }
}

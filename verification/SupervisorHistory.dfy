/**
 Whole histories of one supervisor journal: starts, appends, kills, and crashes
 that cut an append or a start's rewrite of the file after any number of bytes,
 under a database clock.
 */
module SupervisorHistory {
  import opened Wrappers
  import opened EvidenceModel
  import opened JournalFraming
  import opened SupervisorJournal

  datatype Step =
    | Start
    | StartCrash(kept: nat)              // a start dies `kept` bytes into its rewrite
    | Append(content: nat)               // a daily snapshot is appended once per date
    | Tear(tornContent: nat, kept: nat)  // the write stops after `kept` bytes
    | Kill

  /** A step and the database's date at that moment. */
  datatype Moment = Moment(day: int, step: Step)

  /** `records` is history: the lines that stand whole in the file, or that a
      start adopted; `next` was cut after `torn` bytes. */
  datatype World = World(
    data: Bytes, up: bool, position: Recovered, records: seq<Record>, next: Option<Record>, torn: nat, broken: bool)

  const EMPTY_WORLD := World([], false, NOTHING, [], None, 0, false)

  function EntryAt(j: Journal, day: int, content: nat): Entry {
    if j.kind == EventKind then EventEntry(content) else SnapshotEntry(day, content)
  }

  predicate Appends(j: Journal, w: World, day: int) {
    w.up && (j.kind == SnapshotKind ==> w.position.day != Some(day))
  }

  function StartStep(j: Journal, w: World): World {
    match RecoverOutcome(j, w.data)
    case None => w.(data := Trimmed(w.data), broken := true)
    case Some(position) =>
      var records := if w.records == [] && w.next.Some? && w.torn > 0 then [w.next.value] else w.records;
      World(Trimmed(w.data), true, position, records, None, 0, false)
  }

  /** The start finds an incomplete last line and opens the file for rewriting. */
  predicate Rewrites(w: World) { !w.up && Trimmed(w.data) != w.data }

  /** The file was emptied first, so only the bytes rewritten so far remain. */
  function CrashStep(j: Journal, w: World, kept: nat): World {
    if kept >= |Trimmed(w.data)| then StartStep(j, w).(up := false)
    else if kept < |FileOf(j.codec, w.records)| then
      var n := Covered(j.codec, w.records, kept);
      w.(data := Trimmed(w.data)[..kept], records := w.records[..n], next := Some(w.records[n]),
         torn := kept - |FileOf(j.codec, w.records[..n])|)
    else w.(data := Trimmed(w.data)[..kept], torn := kept)
  }

  function AppendStep(j: Journal, w: World, day: int, content: nat): World {
    var r := Seal(j, EntryAt(j, day, content), w.position.head);
    w.(data := w.data + Frame(j.codec.encode(r)), position := Beyond(j, r, w.position), records := w.records + [r])
  }

  function TearStep(j: Journal, w: World, day: int, content: nat, kept: nat): World {
    var r := Seal(j, EntryAt(j, day, content), w.position.head);
    var record := j.codec.encode(r);
    if kept > |record| then AppendStep(j, w, day, content).(up := false)
    else w.(data := w.data + record[..kept], up := false, next := Some(r), torn := kept)
  }

  function Next(j: Journal, w: World, m: Moment): World {
    match m.step
    case Start => if w.up then w else StartStep(j, w)
    case StartCrash(kept) => if Rewrites(w) then CrashStep(j, w, kept) else w
    case Append(content) => if Appends(j, w, m.day) then AppendStep(j, w, m.day, content) else w
    case Tear(content, kept) => if Appends(j, w, m.day) then TearStep(j, w, m.day, content, kept) else w.(up := false)
    case Kill => w.(up := false)
  }

  /** What a start and a kill are, told by file and process. */
  lemma {:induction false} StartsMean(j: Journal, w: World, day: int, kept: nat)
    ensures Next(j, w, Moment(day, Kill)) == w.(up := false)
    ensures w.up ==> Next(j, w, Moment(day, Start)) == w == Next(j, w, Moment(day, StartCrash(kept)))
    ensures !w.up ==>
      var started := Next(j, w, Moment(day, Start));
      && started.data == Trimmed(w.data) && (started.up <==> RecoverOutcome(j, w.data).Some?)
      && (started.up ==> Some(started.position) == RecoverOutcome(j, w.data))
    ensures !w.up && Trimmed(w.data) != w.data ==>
      var crashed := Next(j, w, Moment(day, StartCrash(kept)));
      && !crashed.up
      && crashed.data == (if kept < |Trimmed(w.data)| then Trimmed(w.data)[..kept] else Trimmed(w.data))
  {
    if !w.up && Trimmed(w.data) != w.data && kept >= |Trimmed(w.data)| {
      assert Next(j, w, Moment(day, StartCrash(kept))) == StartStep(j, w).(up := false);
    }
  }

  lemma {:induction false} TearMeans(j: Journal, w: World, day: int, content: nat, kept: nat)
    ensures var frame := j.codec.encode(Seal(j, EntryAt(j, day, content), w.position.head)) + [LF];
      var torn := TearStep(j, w, day, content, kept);
      !torn.up && torn.data == w.data + (if kept < |frame| then frame[..kept] else frame)
  {
  }

  /** What an append is, whole or torn: one line for this entry behind the head,
      a snapshot only once per date. */
  lemma {:induction false} AppendsMean(j: Journal, w: World, day: int, content: nat, kept: nat)
    ensures
      var due := w.up && (j.kind == EventKind || w.position.day != Some(day));
      var entry := if j.kind == EventKind then EventEntry(content) else SnapshotEntry(day, content);
      var frame := j.codec.encode(Seal(j, entry, w.position.head)) + [LF];
      var appended, torn := Next(j, w, Moment(day, Append(content))), Next(j, w, Moment(day, Tear(content, kept)));
      && (!due ==> appended == w && torn == w.(up := false))
      && (due ==>
           && appended.up && appended.data == w.data + frame
           && !torn.up && torn.data == w.data + (if kept < |frame| then frame[..kept] else frame))
  {
    TearMeans(j, w, day, content, kept);
  }

  function Run(j: Journal, ms: seq<Moment>): World
    decreases |ms|
  {
    if ms == [] then EMPTY_WORLD else Next(j, Run(j, ms[..|ms| - 1]), ms[|ms| - 1])
  }

  ghost predicate WorldOk(j: Journal, w: World) {
    && Chained(j, w.records)
    && (w.broken ==> !w.up && w.records == [] && Trimmed(w.data) == w.data && RecoverOutcome(j, w.data).None?)
    && (!w.broken && w.next.None? ==> w.data == FileOf(j.codec, w.records))
    && (!w.broken && w.next.Some? ==> !w.up && TornFile(j, w.data, w.records, w.next.value, w.torn))
    && (w.up ==> w.position == Position(j, w.records))
  }

  lemma {:induction false} StartOk(j: Journal, w: World)
    requires j.codec.Sound() && WorldOk(j, w) && !w.up
    ensures WorldOk(j, StartStep(j, w))
    ensures w.records <= StartStep(j, w).records
    ensures !w.broken && w.records != [] ==> !StartStep(j, w).broken
  {
    if !w.broken {
      if w.next.Some? {
        TornStart(j, w);
      } else {
        OwnFileRecovers(j, w.records);
        FileIsTrimmed(j, w.records);
      }
    }
  }

  lemma {:induction false} TornStart(j: Journal, w: World)
    requires j.codec.Sound() && WorldOk(j, w) && !w.broken && w.next.Some?
    ensures WorldOk(j, StartStep(j, w)) && w.records <= StartStep(j, w).records
    ensures w.records != [] ==> !StartStep(j, w).broken
  {
    var next := w.next.value;
    RecoveryExact(j, w.data, w.records, next, w.torn);
    TornTrimmed(j, w.data, w.records, next, w.torn);
    if w.records == [] && w.torn > 0 {
      if w.torn == |j.codec.encode(next)| {
        ChainedAppend(j, [], next);
        assert [] + [next] == [next];
        assert FileOf(j.codec, []) == [];
        assert j.codec.encode(next)[..w.torn] == j.codec.encode(next);
      } else {
        TornFirstRecordStays(j, w.data, next, w.torn);
      }
    }
  }

  lemma {:induction false} AppendOk(j: Journal, w: World, day: int, content: nat)
    requires j.codec.Sound() && WorldOk(j, w) && w.up
    ensures WorldOk(j, AppendStep(j, w, day, content))
  {
    var r := Seal(j, EntryAt(j, day, content), w.position.head);
    ChainedAppend(j, w.records, r);
  }

  lemma {:induction false} TearOk(j: Journal, w: World, day: int, content: nat, kept: nat)
    requires j.codec.Sound() && WorldOk(j, w) && w.up
    ensures WorldOk(j, TearStep(j, w, day, content, kept))
  {
    AppendOk(j, w, day, content);
  }

  lemma {:induction false} CutFirstOk(j: Journal, w: World, kept: nat)
    requires j.codec.Sound() && WorldOk(j, w) && Rewrites(w) && w.records == [] && kept < |Trimmed(w.data)|
    ensures WorldOk(j, CrashStep(j, w, kept)) && CrashStep(j, w, kept).records == []
  {
    var record := j.codec.encode(w.next.value);
    TornTrimmed(j, w.data, [], w.next.value, w.torn);
    assert (record[..w.torn] + [LF])[..kept] == record[..kept];
  }

  lemma {:induction false} CutFileOk(j: Journal, w: World, kept: nat)
    requires j.codec.Sound() && WorldOk(j, w) && Rewrites(w) && w.records != [] && kept < |Trimmed(w.data)|
    ensures Trimmed(w.data) == FileOf(j.codec, w.records)
    ensures WorldOk(j, CrashStep(j, w, kept))
  {
    TornTrimmed(j, w.data, w.records, w.next.value, w.torn);
    PrefixIsTorn(j, w.records, kept);
  }

  lemma {:induction false} RewritesTorn(j: Journal, w: World)
    requires j.codec.Sound() && WorldOk(j, w) && Rewrites(w)
    ensures !w.broken && w.next.Some? && TornFile(j, w.data, w.records, w.next.value, w.torn)
  {
    if w.next.None? { FileIsTrimmed(j, w.records); }
  }

  lemma {:induction false} CrashInFile(j: Journal, w: World, kept: nat, m: nat)
    requires j.codec.Sound() && WorldOk(j, w) && Rewrites(w) && w.records != [] && m <= |w.records|
    requires kept < |Trimmed(w.data)|
    ensures WorldOk(j, CrashStep(j, w, kept))
    ensures w.records[..m] <= CrashStep(j, w, kept).records <==> |FileOf(j.codec, w.records[..m])| <= kept
  {
    RewritesTorn(j, w);
    CutFileOk(j, w, kept);
    CoveredExact(j.codec, w.records, kept, m);
    var n := Covered(j.codec, w.records, kept);
    assert CrashStep(j, w, kept).records == w.records[..n];
    assert w.records[..m] <= w.records[..n] <==> m <= n;
  }

  lemma {:induction false} CrashAfterFile(j: Journal, w: World, kept: nat, m: nat)
    requires j.codec.Sound() && WorldOk(j, w) && Rewrites(w) && m <= |w.records|
    requires kept >= |Trimmed(w.data)|
    ensures WorldOk(j, CrashStep(j, w, kept))
    ensures w.records[..m] <= CrashStep(j, w, kept).records && |FileOf(j.codec, w.records[..m])| <= kept
  {
    RewritesTorn(j, w);
    StartOk(j, w);
    TornTrimmed(j, w.data, w.records, w.next.value, w.torn);
    FileGrows(j.codec, w.records, m);
  }

  /** A crash inside the rewrite keeps the first m lines exactly if it came
      after their bytes. */
  lemma {:induction false} RewriteCrashExact(j: Journal, w: World, kept: nat, m: nat)
    requires j.codec.Sound() && WorldOk(j, w) && Rewrites(w) && m <= |w.records|
    ensures WorldOk(j, CrashStep(j, w, kept))
    ensures w.records[..m] <= CrashStep(j, w, kept).records <==> |FileOf(j.codec, w.records[..m])| <= kept
  {
    if kept >= |Trimmed(w.data)| {
      CrashAfterFile(j, w, kept, m);
    } else if w.records == [] {
      RewritesTorn(j, w);
      CutFirstOk(j, w, kept);
    } else {
      CrashInFile(j, w, kept, m);
    }
  }

  predicate CrashesIn(w: World, m: Moment) { m.step.StartCrash? && Rewrites(w) }

  lemma {:induction false} NextOk(j: Journal, w: World, m: Moment)
    requires j.codec.Sound() && WorldOk(j, w)
    ensures WorldOk(j, Next(j, w, m))
  {
    match m.step
    case Start => if !w.up { StartOk(j, w); }
    case StartCrash(kept) => if Rewrites(w) { RewriteCrashExact(j, w, kept, 0); }
    case Append(content) => if Appends(j, w, m.day) { AppendOk(j, w, m.day, content); }
    case Tear(content, kept) => if Appends(j, w, m.day) { TearOk(j, w, m.day, content, kept); }
    case Kill =>
  }

  lemma {:induction false} NextKeeps(j: Journal, w: World, m: Moment)
    requires j.codec.Sound() && WorldOk(j, w) && !CrashesIn(w, m)
    ensures w.records <= Next(j, w, m).records
  {
    if m.step == Start && !w.up { StartOk(j, w); }
  }

  lemma {:induction false} RunOk(j: Journal, ms: seq<Moment>)
    requires j.codec.Sound()
    ensures WorldOk(j, Run(j, ms))
    decreases |ms|
  {
    if ms != [] {
      RunOk(j, ms[..|ms| - 1]);
      NextOk(j, Run(j, ms[..|ms| - 1]), ms[|ms| - 1]);
    }
  }

  /** Over every history, crashes inside appends and rewrites included: while
      the file holds a line, the next start succeeds and recovers exactly the
      chain of its whole lines. */
  lemma {:induction false} SupervisorRecovery(j: Journal, ms: seq<Moment>)
    requires j.codec.Sound()
    ensures var w := Run(j, ms);
      && Chained(j, w.records)
      && (w.records != [] ==> RecoverOutcome(j, w.data) == Some(Position(j, w.records)))
  {
    RunOk(j, ms);
    var w := Run(j, ms);
    if w.records != [] {
      if w.next.Some? {
        RecoveryExact(j, w.data, w.records, w.next.value, w.torn);
      } else {
        OwnFileRecovers(j, w.records);
        FileIsTrimmed(j, w.records);
      }
    }
  }

  /** The lines that stood after n moments stand after i. */
  ghost predicate Stand(j: Journal, ms: seq<Moment>, n: nat, i: nat)
    requires n <= |ms| && i <= |ms|
  {
    Run(j, ms[..n]).records <= Run(j, ms[..i]).records
  }

  /** They stand at every later moment. */
  ghost predicate StayWhole(j: Journal, ms: seq<Moment>, n: nat)
    requires n <= |ms|
  {
    forall i: nat | n <= i <= |ms| :: Stand(j, ms, n, i)
  }

  /** A crash inside a rewrite at moment i, if there is one, came after the
      bytes of the lines that stood after n moments. */
  ghost predicate CrashComes(j: Journal, ms: seq<Moment>, n: nat, i: nat)
    requires n <= i < |ms|
  {
    CrashesIn(Run(j, ms[..i]), ms[i]) ==> |FileOf(j.codec, Run(j, ms[..n]).records)| <= ms[i].step.kept
  }

  /** Every later crash inside a rewrite came after the bytes of those lines. */
  ghost predicate CrashesCome(j: Journal, ms: seq<Moment>, n: nat)
    requires n <= |ms|
  {
    forall i: nat | n <= i < |ms| :: CrashComes(j, ms, n, i)
  }

  lemma {:induction false} RunStep(j: Journal, ms: seq<Moment>, i: nat)
    requires i < |ms|
    ensures Run(j, ms[..i + 1]) == Next(j, Run(j, ms[..i]), ms[i])
  {
    assert ms[..i + 1][..i] == ms[..i];
  }

  lemma {:induction false} CrashKeepsExact(j: Journal, w: World, kept: nat, lines: seq<Record>)
    requires j.codec.Sound() && WorldOk(j, w) && Rewrites(w) && lines <= w.records
    ensures lines <= CrashStep(j, w, kept).records <==> |FileOf(j.codec, lines)| <= kept
  {
    assert w.records[..|lines|] == lines;
    RewriteCrashExact(j, w, kept, |lines|);
  }

  lemma {:induction false} KeepsExact(j: Journal, w: World, m: Moment, lines: seq<Record>)
    requires j.codec.Sound() && WorldOk(j, w) && lines <= w.records
    ensures lines <= Next(j, w, m).records <==>
            (CrashesIn(w, m) ==> |FileOf(j.codec, lines)| <= m.step.kept)
  {
    if CrashesIn(w, m) {
      assert Next(j, w, m) == CrashStep(j, w, m.step.kept);
      CrashKeepsExact(j, w, m.step.kept, lines);
    } else {
      NextKeeps(j, w, m);
    }
  }

  lemma {:induction false} OneStepKeeps(j: Journal, ms: seq<Moment>, n: nat, i: nat)
    requires j.codec.Sound() && n <= i < |ms| && Stand(j, ms, n, i)
    ensures Stand(j, ms, n, i + 1) <==> CrashComes(j, ms, n, i)
  {
    RunOk(j, ms[..i]);
    RunStep(j, ms, i);
    KeepsExact(j, Run(j, ms[..i]), ms[i], Run(j, ms[..n]).records);
  }

  lemma {:induction false} NextStands(j: Journal, ms: seq<Moment>, n: nat, i: nat)
    requires j.codec.Sound() && n <= i < |ms| && CrashesCome(j, ms, n) && Stand(j, ms, n, i)
    ensures Stand(j, ms, n, i + 1)
  {
    assert CrashComes(j, ms, n, i);
    OneStepKeeps(j, ms, n, i);
  }

  /** Induction from n to i. */
  lemma {:induction false} UpTo(holds: nat -> bool, n: nat, i: nat)
    requires n <= i && holds(n) && forall k: nat | n <= k < i && holds(k) :: holds(k + 1)
    ensures holds(i)
    decreases i
  {
    if n < i { UpTo(holds, n, i - 1); }
  }

  lemma {:induction false} StandUpTo(j: Journal, ms: seq<Moment>, n: nat, i: nat)
    requires j.codec.Sound() && n <= i <= |ms| && CrashesCome(j, ms, n)
    ensures Stand(j, ms, n, i)
  {
    var holds: nat -> bool := k => n <= k <= |ms| && Stand(j, ms, n, k);
    forall k: nat | n <= k < i && holds(k) ensures holds(k + 1) { NextStands(j, ms, n, k); }
    UpTo(holds, n, i);
  }

  lemma {:induction false} CrashCame(j: Journal, ms: seq<Moment>, n: nat, i: nat)
    requires j.codec.Sound() && n <= i < |ms| && StayWhole(j, ms, n)
    ensures CrashComes(j, ms, n, i)
  {
    assert Stand(j, ms, n, i) && Stand(j, ms, n, i + 1);
    OneStepKeeps(j, ms, n, i);
  }

  /** Committed lines survive a whole history exactly if every crash inside a
      rewrite came after their bytes; no other step loses one. */
  lemma {:induction false} CommittedLinesSurvive(j: Journal, ms: seq<Moment>, n: nat)
    requires j.codec.Sound() && n <= |ms|
    ensures StayWhole(j, ms, n) <==> CrashesCome(j, ms, n)
  {
    if StayWhole(j, ms, n) {
      forall i: nat | n <= i < |ms| ensures CrashComes(j, ms, n, i) { CrashCame(j, ms, n, i); }
    }
    if CrashesCome(j, ms, n) {
      forall i: nat | n <= i <= |ms| ensures Stand(j, ms, n, i) { StandUpTo(j, ms, n, i); }
    }
  }

  /** Two snapshots' or events' worth of history: one line is committed, a
      second write is cut after its first byte, and the next start dies `kept`
      bytes into its rewrite. */
  function LossyRun(kept: nat): seq<Moment> {
    [Moment(0, Start), Moment(0, Append(0)), Moment(1, Tear(0, 1)), Moment(1, StartCrash(kept)), Moment(1, Start)]
  }

  function FirstLine(j: Journal): Record { Seal(j, EntryAt(j, 0, 0), None) }

  ghost function TornWorld(j: Journal): World
    requires j.codec.Sound()
  {
    var next := Seal(j, EntryAt(j, 1, 0), Some(FirstLine(j).contentHash));
    World(
      Frame(j.codec.encode(FirstLine(j))) + j.codec.encode(next)[..1], false,
      Beyond(j, FirstLine(j), NOTHING), [FirstLine(j)], Some(next), 1, false)
  }

  lemma {:induction false} LossyRunTears(j: Journal, kept: nat)
    requires j.codec.Sound()
    ensures Run(j, LossyRun(kept)[..2]).records == [FirstLine(j)]
    ensures Run(j, LossyRun(kept)[..3]) == TornWorld(j)
  {
    var ms := LossyRun(kept);
    assert j.codec.encode(Seal(j, EntryAt(j, 1, 0), Some(FirstLine(j).contentHash))) != [];
    RunStep(j, ms, 0);
    RunStep(j, ms, 1);
    RunStep(j, ms, 2);
    assert ms[..0] == [];
    assert Run(j, ms[..1]) == World([], true, NOTHING, [], None, 0, false);
  }

  lemma {:induction false} TornWorldRewrites(j: Journal)
    requires j.codec.Sound() && WorldOk(j, TornWorld(j))
    ensures Rewrites(TornWorld(j))
    ensures FileOf(j.codec, [FirstLine(j)]) == Frame(j.codec.encode(FirstLine(j)))
    ensures Trimmed(TornWorld(j).data) == FileOf(j.codec, [FirstLine(j)])
  {
    var w := TornWorld(j);
    TornTrimmed(j, w.data, w.records, w.next.value, w.torn);
    FileOfFront(j.codec, [FirstLine(j)]);
    assert [FirstLine(j)][..0] == [] && FileOf(j.codec, []) == [];
  }

  /** The loss at a reachable state: the committed line is gone.  If the crash
      came before the first byte the journal starts again from nothing; inside
      the line it is refused by this and every later start. */
  lemma {:induction false} RewriteCrashLoses(j: Journal, kept: nat)
    requires j.codec.Sound() && kept < |j.codec.encode(FirstLine(j))|
    ensures Run(j, LossyRun(kept)[..2]).records == [FirstLine(j)]
    ensures var w := Run(j, LossyRun(kept));
      && w.records == []
      && (kept == 0 ==> w.up && w.data == [] && w.position == NOTHING)
      && (kept > 0 ==> w.broken && RecoverOutcome(j, w.data).None?)
  {
    LossyRunTears(j, kept);
    RunOk(j, LossyRun(kept)[..3]);
    TornWorldRewrites(j);
    RestartAfterLoss(j, kept);
    LossyRunEnds(j, kept);
  }

  lemma {:induction false} LossyRunEnds(j: Journal, kept: nat)
    requires j.codec.Sound() && Rewrites(TornWorld(j)) && Run(j, LossyRun(kept)[..3]) == TornWorld(j)
    requires !CrashStep(j, TornWorld(j), kept).up
    ensures Run(j, LossyRun(kept)) == StartStep(j, CrashStep(j, TornWorld(j), kept))
  {
    var ms := LossyRun(kept);
    RunStep(j, ms, 3);
    RunStep(j, ms, 4);
    assert ms[..5] == ms;
  }

  lemma {:induction false} RestartAfterLoss(j: Journal, kept: nat)
    requires j.codec.Sound() && kept < |j.codec.encode(FirstLine(j))|
    requires WorldOk(j, TornWorld(j)) && Rewrites(TornWorld(j))
    requires FileOf(j.codec, [FirstLine(j)]) == Frame(j.codec.encode(FirstLine(j)))
    requires Trimmed(TornWorld(j).data) == FileOf(j.codec, [FirstLine(j)])
    ensures !CrashStep(j, TornWorld(j), kept).up
    ensures var w := StartStep(j, CrashStep(j, TornWorld(j), kept));
      && w.records == []
      && (kept == 0 ==> w.up && w.data == [] && w.position == NOTHING)
      && (kept > 0 ==> w.broken && RecoverOutcome(j, w.data).None?)
  {
    var w := CrashStep(j, TornWorld(j), kept);
    RewriteCrashExact(j, TornWorld(j), kept, 1);
    assert Covered(j.codec, [FirstLine(j)], kept) == 0;
    assert w.next == Some(FirstLine(j)) && w.torn == kept && w.records == [];
    RecoveryExact(j, w.data, [], FirstLine(j), kept);
    StartOk(j, w);
  }

  // ----- daily snapshots -----

  predicate DaysInOrder(ms: seq<Moment>) { forall i | 0 < i < |ms| :: ms[i - 1].day <= ms[i].day }

  /** One snapshot per date, dates rising, none from the future. */
  ghost predicate DaysRise(records: seq<Record>, today: Option<int>) {
    && (forall i | 0 <= i < |records| :: records[i].entry.SnapshotEntry?)
    && (forall i | 0 < i < |records| :: records[i - 1].entry.day < records[i].entry.day)
    && (records != [] ==> today.Some? && records[|records| - 1].entry.day <= today.value)
  }

  ghost predicate DaysOk(j: Journal, w: World, today: Option<int>) {
    && DaysRise(w.records, today)
    && (w.next.Some? ==> w.next.value.entry.SnapshotEntry? && today.Some? && w.next.value.entry.day <= today.value)
  }

  function Today(ms: seq<Moment>): Option<int> { if ms == [] then None else Some(ms[|ms| - 1].day) }

  lemma {:induction false} LastDay(j: Journal, records: seq<Record>)
    requires j.kind == SnapshotKind && forall i | 0 <= i < |records| :: records[i].entry.SnapshotEntry?
    ensures Position(j, records).day == if records == [] then None else Some(records[|records| - 1].entry.day)
  {
  }

  lemma {:induction false} DaysWrite(j: Journal, w: World, day: int, content: nat, today: Option<int>)
    requires j.kind == SnapshotKind && DaysRise(w.records, today) && Appends(j, w, day)
    requires w.position.day == if w.records == [] then None else Some(w.records[|w.records| - 1].entry.day)
    requires today.Some? ==> today.value <= day
    ensures DaysRise(AppendStep(j, w, day, content).records, Some(day))
  {
  }

  lemma {:induction false} DaysStart(j: Journal, w: World, today: Option<int>, day: int)
    requires DaysOk(j, w, today) && (today.Some? ==> today.value <= day)
    ensures DaysOk(j, StartStep(j, w), Some(day))
  {
  }

  lemma {:induction false} DaysCrash(j: Journal, w: World, kept: nat, today: Option<int>, day: int)
    requires DaysOk(j, w, today) && (today.Some? ==> today.value <= day)
    ensures DaysOk(j, CrashStep(j, w, kept), Some(day))
  {
    if kept >= |Trimmed(w.data)| {
      DaysStart(j, w, today, day);
    } else if kept < |FileOf(j.codec, w.records)| {
      DaysPrefix(w.records, Covered(j.codec, w.records, kept), today, day);
    }
  }

  lemma {:induction false} DaysPrefix(records: seq<Record>, n: nat, today: Option<int>, day: int)
    requires DaysRise(records, today) && n < |records| && (today.Some? ==> today.value <= day)
    ensures DaysRise(records[..n], Some(day)) && records[n].entry.SnapshotEntry? && records[n].entry.day <= day
    decreases |records| - n
  {
    if n + 1 < |records| { DaysPrefix(records, n + 1, today, day); }
  }

  lemma {:induction false} DaysStep(j: Journal, w: World, m: Moment, today: Option<int>)
    requires j.kind == SnapshotKind && DaysOk(j, w, today)
    requires w.up ==> w.position.day == if w.records == [] then None else Some(w.records[|w.records| - 1].entry.day)
    requires today.Some? ==> today.value <= m.day
    ensures DaysOk(j, Next(j, w, m), Some(m.day))
  {
    match m.step
    case Start => DaysStart(j, w, today, m.day);
    case StartCrash(kept) => if Rewrites(w) { DaysCrash(j, w, kept, today, m.day); }
    case Append(content) => if Appends(j, w, m.day) { DaysWrite(j, w, m.day, content, today); }
    case Tear(content, kept) => if Appends(j, w, m.day) { DaysWrite(j, w, m.day, content, today); }
    case Kill =>
  }

  /** Over every history with a database clock that never goes back, the
      committed daily snapshots carry strictly increasing dates, across crashes
      and restarts. */
  lemma {:induction false} SnapshotDatesIncrease(j: Journal, ms: seq<Moment>)
    requires j.codec.Sound() && j.kind == SnapshotKind && DaysInOrder(ms)
    ensures DaysOk(j, Run(j, ms), Today(ms))
    ensures DaysRise(Run(j, ms).records, Today(ms))
    decreases |ms|
  {
    if ms != [] {
      var front := ms[..|ms| - 1];
      SnapshotDatesIncrease(j, front);
      RunOk(j, front);
      LastDay(j, Run(j, front).records);
      DaysStep(j, Run(j, front), ms[|ms| - 1], Today(front));
    }
  }
}

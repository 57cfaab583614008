/**
 Whole histories of one journal file: boots, appends, kills, and crashes that
 cut an in-flight write after any number of bytes.

 `committed` and `torn` are history: the events whose newline reached the
 file, and the bytes written after the last of those newlines.
 */
module JournalRecovery {
  import opened Wrappers
  import opened EvidenceModel
  import opened JournalFraming
  import opened EvidenceJournal

  datatype World = World(
    data: Bytes,
    up: Option<NewGuid>,        // the running boot, if any
    memory: seq<SignedEvent>,   // its event list
    committed: seq<SignedEvent>,
    torn: Bytes)

  datatype Step =
    | Boot(boot: NewGuid, bootDraw: Draw)
    | TearBoot(boot: NewGuid, bootDraw: Draw, kept: nat)  // a boot whose own first write stops
    | Record(call: AppendCall, draw: Draw)
    | Tear(tornCall: AppendCall, tornDraw: Draw, kept: nat)  // the write stops after `kept` bytes
    | Kill

  const EMPTY_WORLD := World([], None, [], [], [])

  function Written(config: BridgeConfig, w: World, boot: NewGuid, before: Bytes, item: SignedEvent): World {
    World(before + Frame(config.crypto.encodeRecord(item)), Some(boot),
      w.committed + [item], w.committed + [item], [])
  }

  function Cut(w: World, before: Bytes, frame: Bytes, kept: nat): World
    requires kept < |frame|
  {
    w.(data := before + frame[..kept], up := None, torn := frame[..kept])
  }

  /** A write that ends the boot after `kept` bytes of the record and its newline. */
  function WrittenUpTo(
    config: BridgeConfig, w: World, boot: NewGuid, before: Bytes, item: SignedEvent, kept: nat): World
  {
    var frame := Frame(config.crypto.encodeRecord(item));
    if kept < |frame| then Cut(w, before, frame, kept)
    else Written(config, w, boot, before, item).(up := None)
  }

  function BootStep(config: BridgeConfig, w: World, boot: NewGuid, draw: Draw): World {
    match StartOutcome(config, boot, w.data, draw)
    case Success(item) => Written(config, w, boot, LoadedFile(w.data), item)
    case Failure(_) =>
      w.(data := LoadedFile(w.data), torn := if LoadedFile(w.data) == w.data then w.torn else [])
  }

  function TearBootStep(config: BridgeConfig, w: World, boot: NewGuid, draw: Draw, kept: nat): World {
    match StartOutcome(config, boot, w.data, draw)
    case Success(item) => WrittenUpTo(config, w, boot, LoadedFile(w.data), item, kept)
    case Failure(_) => BootStep(config, w, boot, draw)
  }

  function RecordStep(config: BridgeConfig, w: World, call: AppendCall, draw: Draw): World
    requires w.up.Some?
  {
    match AppendOutcome(config, w.up.value, w.memory, |w.data|, call, draw)
    case Success(item) => Written(config, w, w.up.value, w.data, item)
    case Failure(_) => w
  }

  function TearStep(config: BridgeConfig, w: World, call: AppendCall, draw: Draw, kept: nat): World
    requires w.up.Some?
  {
    match AppendOutcome(config, w.up.value, w.memory, |w.data|, call, draw)
    case Success(item) => WrittenUpTo(config, w, w.up.value, w.data, item, kept)
    case Failure(_) => w.(up := None)
  }

  function Next(config: BridgeConfig, w: World, step: Step): World {
    match step
    case Boot(boot, draw) => if w.up.Some? then w else BootStep(config, w, boot, draw)  // one writer holds the lock
    case TearBoot(boot, draw, kept) => if w.up.Some? then w else TearBootStep(config, w, boot, draw, kept)
    case Record(call, draw) => if w.up.None? then w else RecordStep(config, w, call, draw)
    case Tear(call, draw, kept) => if w.up.None? then w else TearStep(config, w, call, draw, kept)
    case Kill => w.(up := None)
  }

  /** What each step of a history is, told by file and process: a kill leaves the
      file, a torn write leaves exactly the bytes that made it, a complete one
      the whole frame, and a process that is up refuses a second one. */
  lemma {:induction false} StepsMean(config: BridgeConfig, w: World, boot: NewGuid, call: AppendCall, draw: Draw, kept: nat)
    ensures Next(config, w, Kill) == w.(up := None)
    ensures w.up.Some? ==> Next(config, w, Boot(boot, draw)) == w == Next(config, w, TearBoot(boot, draw, kept))
    ensures w.up.None? ==> Next(config, w, Record(call, draw)) == w == Next(config, w, Tear(call, draw, kept))
    ensures w.up.Some? ==>
      var r := AppendOutcome(config, w.up.value, w.memory, |w.data|, call, draw);
      var recorded, torn := Next(config, w, Record(call, draw)), Next(config, w, Tear(call, draw, kept));
      && torn.up.None?
      && (r.Failure? ==> recorded == w && torn == w.(up := None))
      && (r.Success? ==>
            var frame := config.crypto.encodeRecord(r.value) + [LF];
            && recorded.data == w.data + frame && recorded.up == w.up
            && recorded.memory == w.committed + [r.value] == recorded.committed && recorded.torn == []
            && torn.data == w.data + (if kept < |frame| then frame[..kept] else frame)
            && torn.committed == (if kept < |frame| then w.committed else recorded.committed)
            && torn.torn == (if kept < |frame| then frame[..kept] else []))
    ensures w.up.None? ==>
      var r := StartOutcome(config, boot, w.data, draw);
      var booted, torn := Next(config, w, Boot(boot, draw)), Next(config, w, TearBoot(boot, draw, kept));
      && booted.up == (if r.Success? then Some(boot) else None) && torn.up.None?
      && (r.Failure? ==> booted == torn && booted.data == LoadedFile(w.data) && booted.committed == w.committed)
      && (r.Success? ==>
            var frame := config.crypto.encodeRecord(r.value) + [LF];
            && booted.data == LoadedFile(w.data) + frame && booted.memory == w.committed + [r.value] == booted.committed
            && torn.data == LoadedFile(w.data) + (if kept < |frame| then frame[..kept] else frame)
            && torn.committed == (if kept < |frame| then w.committed else booted.committed))
  {
  }

  predicate Boots(step: Step) { step.Boot? || step.TearBoot? }

  function Run(config: BridgeConfig, w: World, steps: seq<Step>): World {
    if steps == [] then w
    else Next(config, Run(config, w, steps[..|steps| - 1]), steps[|steps| - 1])
  }

  ghost predicate RecordOk(config: BridgeConfig, events: seq<SignedEvent>, item: SignedEvent) {
    && |config.crypto.encodeRecord(item)| <= MAXIMUM_EVENT_BYTES
    && Links(events, item) && CountersFollow(events, item.claims.body)
    && (AcceptNext(config, events, item) <==> Reloadable(config, item))
  }

  ghost predicate HistoryOk(config: BridgeConfig, committed: seq<SignedEvent>) {
    && |committed| <= MAXIMUM_EVENTS
    && forall i | 0 <= i < |committed| :: RecordOk(config, committed[..i], committed[i])
  }

  ghost predicate WorldOk(config: BridgeConfig, w: World) {
    && HistoryOk(config, w.committed)
    && w.data == FileOf(config.crypto, w.committed) + w.torn
    && LF !in w.torn && |w.torn| <= MAXIMUM_EVENT_BYTES
    && |w.data| <= MAXIMUM_JOURNAL_BYTES
    && (w.up.Some? ==>
      && w.torn == [] && w.memory == w.committed && w.committed != []
      && w.committed[|w.committed| - 1].claims.body.boot == w.up.value)
  }

  predicate AllReloadable(config: BridgeConfig, events: seq<SignedEvent>, from: nat) {
    forall i | from <= i < |events| :: Reloadable(config, events[i])
  }

  lemma {:induction false} CheckOneLine(
    config: BridgeConfig, lines: seq<Bytes>, events: seq<SignedEvent>, item: SignedEvent)
    requires config.crypto.Sound()
    requires lines != [] && lines[0] == config.crypto.encodeRecord(item)
    requires |events| < MAXIMUM_EVENTS && RecordOk(config, events, item)
    ensures CheckLines(config, lines, events) ==
            if Reloadable(config, item) then CheckLines(config, lines[1..], events + [item])
            else Failure(JournalInvalid)
  {
    assert config.crypto.decodeRecord(lines[0]) == Some(item);
  }

  lemma {:induction false} ReloadableFrom(config: BridgeConfig, events: seq<SignedEvent>, i: nat)
    requires i < |events|
    ensures AllReloadable(config, events, i) <==> Reloadable(config, events[i]) && AllReloadable(config, events, i + 1)
  {
  }

  lemma {:induction false} RecordsFrom(crypto: Crypto, events: seq<SignedEvent>, i: nat)
    requires i < |events|
    ensures var lines := Records(crypto, events)[i..];
      lines[0] == crypto.encodeRecord(events[i]) && lines[1..] == Records(crypto, events)[i + 1..]
  {
  }

  lemma {:induction false} CheckOwnLines(config: BridgeConfig, events: seq<SignedEvent>, i: nat)
    requires config.crypto.Sound() && HistoryOk(config, events)
    requires i <= |events|
    ensures CheckLines(config, Records(config.crypto, events)[i..], events[..i]) ==
            if AllReloadable(config, events, i) then Success(events) else Failure(JournalInvalid)
    decreases |events| - i
  {
    if i == |events| {
      assert events[..i] == events;
    } else {
      assert RecordOk(config, events[..i], events[i]);
      RecordsFrom(config.crypto, events, i);
      CheckOneLine(config, Records(config.crypto, events)[i..], events[..i], events[i]);
      PrefixGrows(events, i);
      CheckOwnLines(config, events, i + 1);
      ReloadableFrom(config, events, i);
    }
  }

  lemma {:induction false} PrefixGrows(events: seq<SignedEvent>, i: nat)
    requires i < |events|
    ensures events[..i] + [events[i]] == events[..i + 1]
  {
  }

  lemma {:induction false} OwnFile(crypto: Crypto, events: seq<SignedEvent>)
    requires crypto.Sound()
    ensures Lines(FileOf(crypto, events)) == Records(crypto, events)
  {
    var records := Records(crypto, events);
    forall i | 0 <= i < |records| ensures Unbroken(records[i]) {
      assert LF !in crypto.encodeRecord(events[i]) && CR !in crypto.encodeRecord(events[i]);
    }
    LinesOfFrames(records);
  }

  /** The torn tail goes, and nothing else; the tail-size test never fires. */
  lemma {:induction false} TornTailGoes(config: BridgeConfig, w: World)
    requires WorldOk(config, w)
    ensures TailCheck(w.data).None? && LoadedFile(w.data) == FileOf(config.crypto, w.committed)
  {
    var records := Records(config.crypto, w.committed);
    CommittedOfTorn(records, w.torn);
    assert w.data[..|Frames(records)|] == Frames(records);
  }

  /** Loading any file of the journal's own making accepts it exactly when
      every committed event is reloadable, and then yields exactly the
      committed events. */
  lemma {:induction false} RecoveryExact(config: BridgeConfig, w: World)
    requires config.crypto.Sound() && WorldOk(config, w)
    ensures LoadedFile(w.data) == FileOf(config.crypto, w.committed)
    ensures LoadOutcome(config, w.data) ==
            if AllReloadable(config, w.committed, 0) then Success(w.committed) else Failure(JournalInvalid)
  {
    TornTailGoes(config, w);
    OwnFile(config.crypto, w.committed);
    CheckOwnLines(config, w.committed, 0);
    assert Records(config.crypto, w.committed)[0..] == Records(config.crypto, w.committed) && w.committed[..0] == [];
  }

  // ----- what an append refuses is what a load would -----

  lemma {:induction false} CheckLinesSplit(
    config: BridgeConfig, lines: seq<Bytes>, more: seq<Bytes>, events: seq<SignedEvent>)
    requires CheckLines(config, lines, events).Success?
    ensures CheckLines(config, lines + more, events) == CheckLines(config, more, CheckLines(config, lines, events).value)
    decreases |lines|
  {
    if lines == [] {
      assert lines + more == more;
    } else {
      CheckLinesStep(config, lines, events);
      var item := config.crypto.decodeRecord(lines[0]).value;
      assert (lines + more)[1..] == lines[1..] + more;
      CheckLinesSplit(config, lines[1..], more, events + [item]);
    }
  }

  lemma {:induction false} SealedIsAccepted(
    config: BridgeConfig, boot: NewGuid, events: seq<SignedEvent>, call: AppendCall, draw: Draw)
    requires config.crypto.Sound()
    requires var item := Seal(config, events, BodyOf(config, boot, call), draw);
      Reloadable(config, item) && |config.crypto.encodeRecord(item)| <= MAXIMUM_EVENT_BYTES
    ensures AcceptNext(config, events, Seal(config, events, BodyOf(config, boot, call), draw)) <==>
            CallValid(call) && CountersFollow(events, BodyOf(config, boot, call)) && ValidPayload(call.payload)
  {
    var item := Seal(config, events, BodyOf(config, boot, call), draw);
    assert |item.canonical| <= |config.crypto.encodeRecord(item)|;
  }

  /** A file that ends in a newline is only refused for its size or its lines. */
  lemma {:induction false} OwnFileLoads(config: BridgeConfig, events: seq<SignedEvent>)
    requires config.crypto.Sound()
    ensures var data := FileOf(config.crypto, events);
      LoadOutcome(config, data) ==
      if |data| > MAXIMUM_JOURNAL_BYTES then Failure(FileTooLarge)
      else CheckLines(config, Records(config.crypto, events), [])
  {
    var data := FileOf(config.crypto, events);
    CommittedOfTorn(Records(config.crypto, events), []);
    assert data + [] == data && data[..|data|] == data;
    OwnFile(config.crypto, events);
  }

  lemma {:induction false} CheckLastLine(config: BridgeConfig, line: Bytes, events: seq<SignedEvent>, item: SignedEvent)
    requires config.crypto.decodeRecord(line) == Some(item)
    ensures CheckLines(config, [line], events) == Success(events + [item]) <==>
            |line| <= MAXIMUM_EVENT_BYTES && |events| < MAXIMUM_EVENTS && AcceptNext(config, events, item)
  {
    assert [line][1..] == [];
  }

  lemma {:induction false} RecordsAppend(crypto: Crypto, events: seq<SignedEvent>, item: SignedEvent)
    ensures Records(crypto, events + [item]) == Records(crypto, events) + [crypto.encodeRecord(item)]
  {
  }

  /** The file of these events with one more record loads exactly if it is not
      too large and the record continues it. */
  lemma {:induction false} LoadsOneMore(config: BridgeConfig, events: seq<SignedEvent>, item: SignedEvent)
    requires config.crypto.Sound() && LoadOutcome(config, FileOf(config.crypto, events)) == Success(events)
    ensures var record := config.crypto.encodeRecord(item);
      var data := FileOf(config.crypto, events) + Frame(record);
      LoadOutcome(config, data) == Success(events + [item]) <==>
        && |data| <= MAXIMUM_JOURNAL_BYTES && |record| <= MAXIMUM_EVENT_BYTES && |events| < MAXIMUM_EVENTS
        && AcceptNext(config, events, item)
  {
    var record := config.crypto.encodeRecord(item);
    FileOfAppend(config.crypto, events, item);
    OwnFileLoads(config, events);
    OwnFileLoads(config, events + [item]);
    RecordsAppend(config.crypto, events, item);
    CheckLinesSplit(config, Records(config.crypto, events), [record], []);
    CheckLastLine(config, record, events, item);
  }

  /** On a journal that loads, a call that names the configured campaign and no
      all-zero request id is appended exactly if the file with its record would
      load again: `Append` and the load share every limit and every check. */
  lemma {:induction false} AppendsWhatLoads(
    config: BridgeConfig, boot: NewGuid, events: seq<SignedEvent>, call: AppendCall, draw: Draw)
    requires config.crypto.Sound() && LoadOutcome(config, FileOf(config.crypto, events)) == Success(events)
    requires call.request != Some(EMPTY_GUID) && (call.campaign.Some? ==> call.campaign == config.campaign)
    ensures var item := Seal(config, events, BodyOf(config, boot, call), draw);
      var file := FileOf(config.crypto, events);
      AppendOutcome(config, boot, events, |file|, call, draw) == Success(item) <==>
      LoadOutcome(config, file + Frame(config.crypto.encodeRecord(item))) == Success(events + [item])
  {
    var item := Seal(config, events, BodyOf(config, boot, call), draw);
    LoadsOneMore(config, events, item);
    if |config.crypto.encodeRecord(item)| <= MAXIMUM_EVENT_BYTES {
      SealedIsAccepted(config, boot, events, call, draw);
    }
  }

  lemma {:induction false} HistoryAppend(config: BridgeConfig, events: seq<SignedEvent>, item: SignedEvent)
    requires HistoryOk(config, events) && |events| < MAXIMUM_EVENTS
    requires RecordOk(config, events, item)
    ensures HistoryOk(config, events + [item])
  {
    var all := events + [item];
    forall i | 0 <= i < |all| ensures RecordOk(config, all[..i], all[i]) {
      assert all[..i] == if i < |events| then events[..i] else events;
    }
  }

  lemma {:induction false} WrittenFile(config: BridgeConfig, w: World, boot: NewGuid, before: Bytes, item: SignedEvent)
    requires before == FileOf(config.crypto, w.committed)
    ensures var t := Written(config, w, boot, before, item); t.data == FileOf(config.crypto, t.committed) + t.torn
  {
    FileOfAppend(config.crypto, w.committed, item);
  }

  lemma {:induction false} WrittenWorldOk(
    config: BridgeConfig, w: World, boot: NewGuid, before: Bytes, item: SignedEvent)
    requires HistoryOk(config, w.committed) && before == FileOf(config.crypto, w.committed)
    requires |w.committed| < MAXIMUM_EVENTS && RecordOk(config, w.committed, item)
    requires |before| + |config.crypto.encodeRecord(item)| + 1 <= MAXIMUM_JOURNAL_BYTES
    requires item.claims.body.boot == boot
    ensures WorldOk(config, Written(config, w, boot, before, item))
  {
    WrittenFile(config, w, boot, before, item);
    HistoryAppend(config, w.committed, item);
  }

  lemma {:induction false} WrittenOk(
    config: BridgeConfig, w: World, boot: NewGuid, before: Bytes, call: AppendCall, draw: Draw)
    requires config.crypto.Sound() && WorldOk(config, w)
    requires before == FileOf(config.crypto, w.committed)
    requires AppendOutcome(config, boot, w.committed, |before|, call, draw).Success?
    ensures WorldOk(config,
              Written(config, w, boot, before, AppendOutcome(config, boot, w.committed, |before|, call, draw).value))
  {
    var item := AppendOutcome(config, boot, w.committed, |before|, call, draw).value;
    AppendedIsReloadable(config, boot, w.committed, |before|, call, draw);
    WrittenWorldOk(config, w, boot, before, item);
  }

  lemma {:induction false} BootOk(config: BridgeConfig, w: World, boot: NewGuid, draw: Draw)
    requires config.crypto.Sound() && WorldOk(config, w) && w.up.None?
    ensures WorldOk(config, BootStep(config, w, boot, draw))
  {
    RecoveryExact(config, w);
    if StartOutcome(config, boot, w.data, draw).Success? {
      WrittenOk(config, w, boot, LoadedFile(w.data), BRIDGE_STARTED_CALL, draw);
    } else if LoadedFile(w.data) == w.data {
      assert |w.torn| == 0;
    }
  }

  lemma {:induction false} RecordOkStep(config: BridgeConfig, w: World, call: AppendCall, draw: Draw)
    requires config.crypto.Sound() && WorldOk(config, w) && w.up.Some?
    ensures WorldOk(config, RecordStep(config, w, call, draw))
  {
    if AppendOutcome(config, w.up.value, w.memory, |w.data|, call, draw).Success? {
      assert w.data == FileOf(config.crypto, w.committed);
      WrittenOk(config, w, w.up.value, w.data, call, draw);
    }
  }

  lemma {:induction false} CutOk(config: BridgeConfig, w: World, before: Bytes, record: Bytes, kept: nat)
    requires WorldOk(config, w) && before == FileOf(config.crypto, w.committed)
    requires LF !in record && |record| <= MAXIMUM_EVENT_BYTES && kept <= |record|
    requires |before| + |record| + 1 <= MAXIMUM_JOURNAL_BYTES
    ensures WorldOk(config, Cut(w, before, Frame(record), kept))
  {
    assert Frame(record)[..kept] == record[..kept];
  }

  lemma {:induction false} WrittenUpToOk(
    config: BridgeConfig, w: World, boot: NewGuid, before: Bytes, call: AppendCall, draw: Draw, kept: nat)
    requires config.crypto.Sound() && WorldOk(config, w)
    requires before == FileOf(config.crypto, w.committed)
    requires AppendOutcome(config, boot, w.committed, |before|, call, draw).Success?
    ensures var item := AppendOutcome(config, boot, w.committed, |before|, call, draw).value;
      WorldOk(config, WrittenUpTo(config, w, boot, before, item, kept))
  {
    var item := AppendOutcome(config, boot, w.committed, |before|, call, draw).value;
    var record := config.crypto.encodeRecord(item);
    if kept <= |record| {
      CutOk(config, w, before, record, kept);
    } else {
      WrittenOk(config, w, boot, before, call, draw);
    }
  }

  lemma {:induction false} TearBootOk(config: BridgeConfig, w: World, boot: NewGuid, draw: Draw, kept: nat)
    requires config.crypto.Sound() && WorldOk(config, w) && w.up.None?
    ensures WorldOk(config, TearBootStep(config, w, boot, draw, kept))
  {
    if StartOutcome(config, boot, w.data, draw).Success? {
      RecoveryExact(config, w);
      WrittenUpToOk(config, w, boot, LoadedFile(w.data), BRIDGE_STARTED_CALL, draw, kept);
    } else {
      BootOk(config, w, boot, draw);
    }
  }

  lemma {:induction false} TearOk(config: BridgeConfig, w: World, call: AppendCall, draw: Draw, kept: nat)
    requires config.crypto.Sound() && WorldOk(config, w) && w.up.Some?
    ensures WorldOk(config, TearStep(config, w, call, draw, kept))
  {
    if AppendOutcome(config, w.up.value, w.memory, |w.data|, call, draw).Success? {
      assert w.data == FileOf(config.crypto, w.committed);
      WrittenUpToOk(config, w, w.up.value, w.data, call, draw, kept);
    }
  }

  lemma {:induction false} NextOk(config: BridgeConfig, w: World, step: Step)
    requires config.crypto.Sound() && WorldOk(config, w)
    ensures WorldOk(config, Next(config, w, step))
  {
    match step
    case Boot(boot, draw) => if w.up.None? { BootOk(config, w, boot, draw); }
    case TearBoot(boot, draw, kept) => if w.up.None? { TearBootOk(config, w, boot, draw, kept); }
    case Record(call, draw) => if w.up.Some? { RecordOkStep(config, w, call, draw); }
    case Tear(call, draw, kept) => if w.up.Some? { TearOk(config, w, call, draw, kept); }
    case Kill =>
  }

  predicate Adds(before: seq<SignedEvent>, after: seq<SignedEvent>, boot: Guid) {
    after == before ||
    (|after| == |before| + 1 && after == before + [after[|before|]] && after[|before|].claims.body.boot == boot)
  }

  lemma {:induction false} BootAdds(config: BridgeConfig, w: World, boot: NewGuid, draw: Draw, kept: nat)
    ensures Adds(w.committed, BootStep(config, w, boot, draw).committed, boot)
    ensures Adds(w.committed, TearBootStep(config, w, boot, draw, kept).committed, boot)
  {
  }

  lemma {:induction false} RecordAdds(config: BridgeConfig, w: World, call: AppendCall, draw: Draw, kept: nat)
    requires w.up.Some?
    ensures Adds(w.committed, RecordStep(config, w, call, draw).committed, w.up.value)
    ensures Adds(w.committed, TearStep(config, w, call, draw, kept).committed, w.up.value)
  {
  }

  /** A step commits at most one event, and only of the boot that runs or starts. */
  lemma {:induction false} NextCommits(config: BridgeConfig, w: World, step: Step)
    ensures var all := Next(config, w, step).committed;
      || all == w.committed
      || (Boots(step) && Adds(w.committed, all, step.boot))
      || (!Boots(step) && w.up.Some? && Adds(w.committed, all, w.up.value))
  {
    match step
    case Boot(boot, draw) => BootAdds(config, w, boot, draw, 0);
    case TearBoot(boot, draw, kept) => BootAdds(config, w, boot, draw, kept);
    case Record(call, draw) => if w.up.Some? { RecordAdds(config, w, call, draw, 0); }
    case Tear(call, draw, kept) => if w.up.Some? { RecordAdds(config, w, call, draw, kept); }
    case Kill =>
  }

  lemma {:induction false} RunOk(config: BridgeConfig, steps: seq<Step>)
    requires config.crypto.Sound()
    ensures WorldOk(config, Run(config, EMPTY_WORLD, steps))
  {
    if steps != [] {
      RunOk(config, steps[..|steps| - 1]);
      NextOk(config, Run(config, EMPTY_WORLD, steps[..|steps| - 1]), steps[|steps| - 1]);
    }
  }

  lemma {:induction false} ReloadableIsAccepted(config: BridgeConfig, events: seq<SignedEvent>)
    requires HistoryOk(config, events) && AllReloadable(config, events, 0)
    ensures Accepted(config, events)
  {
    forall i | 0 <= i < |events| ensures AcceptNext(config, events[..i], events[i]) {
      assert RecordOk(config, events[..i], events[i]);
    }
  }

  /** After any history a restart keeps exactly the committed records, drops
      the torn tail and accepts the file exactly when every call was reloadable. */
  lemma {:induction false} CrashRecovery(config: BridgeConfig, steps: seq<Step>)
    requires config.crypto.Sound()
    ensures var w := Run(config, EMPTY_WORLD, steps);
      && LoadedFile(w.data) == FileOf(config.crypto, w.committed)
      && (LoadOutcome(config, w.data) == Success(w.committed) <==> AllReloadable(config, w.committed, 0))
      && (AllReloadable(config, w.committed, 0) ==> Accepted(config, w.committed))
  {
    var w := Run(config, EMPTY_WORLD, steps);
    RunOk(config, steps);
    RecoveryExact(config, w);
    if AllReloadable(config, w.committed, 0) { ReloadableIsAccepted(config, w.committed); }
  }

  /** The first event after a restart continues numbering and hash link. */
  lemma {:induction false} RestartContinues(config: BridgeConfig, steps: seq<Step>, boot: NewGuid, draw: Draw)
    requires config.crypto.Sound()
    requires StartOutcome(config, boot, Run(config, EMPTY_WORLD, steps).data, draw).Success?
    ensures var w := Run(config, EMPTY_WORLD, steps);
      Links(w.committed, StartOutcome(config, boot, w.data, draw).value)
  {
    var w := Run(config, EMPTY_WORLD, steps);
    RunOk(config, steps);
    RecoveryExact(config, w);
    AppendedIsReloadable(config, boot, w.committed, |LoadedFile(w.data)|, BRIDGE_STARTED_CALL, draw);
  }

  /** Nothing committed is ever lost or changed by later steps. */
  lemma {:induction false} CommittedOnlyGrows(config: BridgeConfig, steps: seq<Step>, n: nat)
    requires n <= |steps|
    ensures Run(config, EMPTY_WORLD, steps[..n]).committed <= Run(config, EMPTY_WORLD, steps).committed
    decreases |steps|
  {
    if n == |steps| {
      assert steps[..n] == steps;
    } else {
      var front := steps[..|steps| - 1];
      CommittedOnlyGrows(config, front, n);
      assert front[..n] == steps[..n];
      NextCommits(config, Run(config, EMPTY_WORLD, front), steps[|steps| - 1]);
    }
  }

  /** A first record that was cut inside is dropped: the next load finds an
      empty journal. */
  lemma {:induction false} TornFirstRecordIsDropped(config: BridgeConfig, boot: NewGuid, draw: Draw, kept: nat)
    requires config.crypto.Sound()
    requires StartOutcome(config, boot, [], draw).Success?
    requires 0 < kept <= |config.crypto.encodeRecord(StartOutcome(config, boot, [], draw).value)|
    ensures var w := Run(config, EMPTY_WORLD, [TearBoot(boot, draw, kept)]);
      && w.committed == [] && w.torn != []
      && LoadedFile(w.data) == [] && LoadOutcome(config, w.data) == Success([])
  {
    var steps := [TearBoot(boot, draw, kept)];
    assert steps[..0] == [] && Run(config, EMPTY_WORLD, []) == EMPTY_WORLD;
    CrashRecovery(config, steps);
  }

  // ----- counters within a boot -----

  function BootOf(events: seq<SignedEvent>, i: nat): Guid
    requires i < |events|
  {
    events[i].claims.body.boot
  }

  /** Every boot, completed or cut, draws an id no earlier event carries. */
  ghost predicate FreshBoots(config: BridgeConfig, steps: seq<Step>) {
    forall n | 0 <= n < |steps| && Boots(steps[n]) ::
      var seen := Run(config, EMPTY_WORLD, steps[..n]).committed;
      forall i | 0 <= i < |seen| :: BootOf(seen, i) != steps[n].boot
  }

  ghost predicate BootsContiguous(events: seq<SignedEvent>) {
    forall i, j, k | 0 <= i < j < k < |events| && BootOf(events, i) == BootOf(events, k) ::
      BootOf(events, j) == BootOf(events, i)
  }

  lemma {:induction false} FreshBootsAreContiguous(config: BridgeConfig, steps: seq<Step>)
    requires config.crypto.Sound() && FreshBoots(config, steps)
    ensures BootsContiguous(Run(config, EMPTY_WORLD, steps).committed)
  {
    if steps != [] {
      var front, step := steps[..|steps| - 1], steps[|steps| - 1];
      var w := Run(config, EMPTY_WORLD, front);
      forall n | 0 <= n < |front| && Boots(front[n])
        ensures var seen := Run(config, EMPTY_WORLD, front[..n]).committed;
          forall i | 0 <= i < |seen| :: BootOf(seen, i) != front[n].boot
      {
        assert front[..n] == steps[..n];
      }
      FreshBootsAreContiguous(config, front);
      RunOk(config, front);
      if Boots(step) {
        assert steps[..|steps| - 1] == front;
        forall i | 0 <= i < |w.committed| ensures BootOf(w.committed, i) != step.boot {
          assert Boots(steps[|steps| - 1]);
        }
      }
      NextCommits(config, w, step);
      var all := Next(config, w, step).committed;
      if all != w.committed {
        ContiguousAppend(w.committed, all[|w.committed|]);
      }
    }
  }

  lemma {:induction false} ContiguousAppend(events: seq<SignedEvent>, item: SignedEvent)
    requires BootsContiguous(events)
    requires
      || events == [] || item.claims.body.boot == BootOf(events, |events| - 1)
      || (forall i | 0 <= i < |events| :: BootOf(events, i) != item.claims.body.boot)
    ensures BootsContiguous(events + [item])
  {
    var all := events + [item];
    forall i, j, k | 0 <= i < j < k < |all| && BootOf(all, i) == BootOf(all, k)
      ensures BootOf(all, j) == BootOf(all, i)
    {
      assert BootOf(all, i) == BootOf(events, i) && BootOf(all, j) == BootOf(events, j);
      if k < |events| {
        assert BootOf(events, k) == BootOf(all, k);
      } else if j < |events| - 1 {
        assert BootOf(events, |events| - 1) == BootOf(events, i);
      }
    }
  }

  lemma {:induction false} CountersWithinBoot(config: BridgeConfig, events: seq<SignedEvent>, i: nat, j: nat)
    requires HistoryOk(config, events) && BootsContiguous(events)
    requires i <= j < |events| && BootOf(events, i) == BootOf(events, j)
    ensures events[i].claims.body.generation <= events[j].claims.body.generation
    ensures events[i].claims.body.reconnects <= events[j].claims.body.reconnects
    decreases j
  {
    if i < j {
      assert BootOf(events, j - 1) == BootOf(events, i);
      CountersWithinBoot(config, events, i, j - 1);
      assert RecordOk(config, events[..j], events[j]);
      assert events[..j][j - 1] == events[j - 1];
    }
  }

  /** Across crashes and restarts, the counters of one boot never fall. */
  lemma {:induction false} BootCountersNeverFall(config: BridgeConfig, steps: seq<Step>, i: nat, j: nat)
    requires config.crypto.Sound() && FreshBoots(config, steps)
    requires i <= j < |Run(config, EMPTY_WORLD, steps).committed|
    requires var events := Run(config, EMPTY_WORLD, steps).committed; BootOf(events, i) == BootOf(events, j)
    ensures var events := Run(config, EMPTY_WORLD, steps).committed;
      && events[i].claims.body.generation <= events[j].claims.body.generation
      && events[i].claims.body.reconnects <= events[j].claims.body.reconnects
  {
    RunOk(config, steps);
    FreshBootsAreContiguous(config, steps);
    CountersWithinBoot(config, Run(config, EMPTY_WORLD, steps).committed, i, j);
  }
}

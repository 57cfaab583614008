/**
 `SupervisorStateStore`: the supervisor's two hash-chained journals (events and
 daily snapshots), and what a start recovers from them.
 */
module SupervisorJournal {
  import opened Wrappers
  import opened EvidenceModel
  import opened JournalFraming

  datatype Kind = EventKind | SnapshotKind

  /** The payload, as far as recovery reads it. */
  datatype Entry = EventEntry(content: nat) | SnapshotEntry(day: int, content: nat)

  datatype Record = Record(kind: Kind, campaign: Guid, previous: Option<Digest>, entry: Entry, contentHash: Digest)

  /** SHA-256 over the canonical record, and its JSON line. */
  datatype Codec = Codec(
    hashOf: (Kind, Guid, Option<Digest>, Entry) -> Digest,
    encode: Record -> Bytes,
    decode: Bytes -> Option<Record>)
  {
    /** A JSON object round trips, spans one line, and no part of it cut off at
        the end is a JSON object. */
    ghost predicate Sound() {
      && (forall r :: decode(encode(r)) == Some(r))
      && (forall r :: encode(r) != [] && LF !in encode(r) && CR !in encode(r))
      && (forall r, n | 0 <= n < |encode(r)| :: decode(encode(r)[..n]).None?)
    }
  }

  datatype Journal = Journal(codec: Codec, kind: Kind, campaign: Guid)

  datatype Recovered = Recovered(head: Option<Digest>, day: Option<int>)

  const NOTHING := Recovered(None, None)

  function Seal(j: Journal, entry: Entry, head: Option<Digest>): Record {
    Record(j.kind, j.campaign, head, entry, j.codec.hashOf(j.kind, j.campaign, head, entry))
  }

  /** The checks of one line that follows `at`. */
  predicate Continues(j: Journal, r: Record, at: Recovered) {
    r == Seal(j, r.entry, at.head) && (j.kind == SnapshotKind ==> r.entry.SnapshotEntry?)
  }

  function Beyond(j: Journal, r: Record, at: Recovered): Recovered {
    Recovered(Some(r.contentHash), if j.kind == SnapshotKind && r.entry.SnapshotEntry? then Some(r.entry.day) else at.day)
  }

  function CheckLines(j: Journal, lines: seq<Bytes>, at: Recovered): Option<Recovered>
    decreases |lines|
  {
    if lines == [] then Some(at)
    else match j.codec.decode(lines[0])
      case None => None
      case Some(r) => if Continues(j, r, at) then CheckLines(j, lines[1..], Beyond(j, r, at)) else None
  }

  /** The file as the start rewrites it: `rsplit` keeps everything before the
      last newline, which is everything when there is none. */
  function Trimmed(data: Bytes): Bytes {
    var n := CommittedLength(data);
    if n == |data| then data
    else if n == 0 then data + [LF]
    else if n == 1 then []
    else data[..n]
  }

  function RecoverOutcome(j: Journal, data: Bytes): Option<Recovered> { CheckLines(j, Lines(Trimmed(data)), NOTHING) }

  // ----- the links, told record by record -----

  /** The record names kind and campaign, points to `previous`, carries the hash
      of its own fields, and a snapshot carries a date. */
  predicate LinkedTo(j: Journal, r: Record, previous: Option<Digest>) {
    && r.kind == j.kind && r.campaign == j.campaign && r.previous == previous
    && r.contentHash == j.codec.hashOf(r.kind, r.campaign, r.previous, r.entry)
    && (j.kind == SnapshotKind ==> r.entry.SnapshotEntry?)
  }

  /** Every line is a record that points to the line before it. */
  predicate LinkedLines(j: Journal, lines: seq<Bytes>, head: Option<Digest>) {
    forall i | 0 <= i < |lines| ::
      && j.codec.decode(lines[i]).Some?
      && (i == 0 ==> LinkedTo(j, j.codec.decode(lines[i]).value, head))
      && (i > 0 ==>
           j.codec.decode(lines[i - 1]).Some? &&
           LinkedTo(j, j.codec.decode(lines[i]).value, Some(j.codec.decode(lines[i - 1]).value.contentHash)))
  }

  lemma {:induction false} LinkedRest(j: Journal, lines: seq<Bytes>, head: Option<Digest>)
    requires lines != [] && j.codec.decode(lines[0]).Some?
    ensures var first := j.codec.decode(lines[0]).value;
      LinkedLines(j, lines, head) <==> LinkedTo(j, first, head) && LinkedLines(j, lines[1..], Some(first.contentHash))
  {
    var rest, first := lines[1..], j.codec.decode(lines[0]).value;
    assert forall i | 0 <= i < |rest| :: rest[i] == lines[i + 1];
    if LinkedLines(j, lines, head) {
      forall i | 0 <= i < |rest|
        ensures j.codec.decode(rest[i]).Some?
        ensures i == 0 ==> LinkedTo(j, j.codec.decode(rest[i]).value, Some(first.contentHash))
        ensures i > 0 ==>
          j.codec.decode(rest[i - 1]).Some? &&
          LinkedTo(j, j.codec.decode(rest[i]).value, Some(j.codec.decode(rest[i - 1]).value.contentHash))
      {
        assert rest[i] == lines[i + 1] && (i > 0 ==> rest[i - 1] == lines[i]);
      }
    }
    if LinkedTo(j, first, head) && LinkedLines(j, rest, Some(first.contentHash)) {
      forall i | 0 <= i < |lines|
        ensures j.codec.decode(lines[i]).Some?
        ensures i == 0 ==> LinkedTo(j, j.codec.decode(lines[i]).value, head)
        ensures i > 0 ==>
          j.codec.decode(lines[i - 1]).Some? &&
          LinkedTo(j, j.codec.decode(lines[i]).value, Some(j.codec.decode(lines[i - 1]).value.contentHash))
      {
        if i > 0 { assert lines[i] == rest[i - 1] && (i > 1 ==> lines[i - 1] == rest[i - 2]); }
      }
    }
  }

  lemma {:induction false} ContinuesIsLinked(j: Journal, r: Record, at: Recovered)
    ensures Continues(j, r, at) <==> LinkedTo(j, r, at.head)
  {
  }

  /** The date an entry names. */
  function DateOf(entry: Entry): Option<int> { if entry.SnapshotEntry? then Some(entry.day) else None }

  /** The lines are accepted exactly when they are linked; the head is the last
      line's hash and the date the last snapshot's. */
  lemma {:induction false} CheckedIsLinked(j: Journal, lines: seq<Bytes>, at: Recovered)
    ensures CheckLines(j, lines, at).Some? <==> LinkedLines(j, lines, at.head)
    ensures CheckLines(j, lines, at).Some? && lines != [] ==>
      var last := j.codec.decode(lines[|lines| - 1]).value;
      && CheckLines(j, lines, at).value.head == Some(last.contentHash)
      && (j.kind == SnapshotKind ==> CheckLines(j, lines, at).value.day == DateOf(last.entry))
      && (j.kind == EventKind ==> CheckLines(j, lines, at).value.day == at.day)
    decreases |lines|
  {
    if lines != [] && j.codec.decode(lines[0]).Some? {
      var first := j.codec.decode(lines[0]).value;
      ContinuesIsLinked(j, first, at);
      LinkedRest(j, lines, at.head);
      CheckedIsLinked(j, lines[1..], Beyond(j, first, at));
      if |lines| > 1 { assert lines[1..][|lines| - 2] == lines[|lines| - 1]; }
    }
  }

  /** Head and date are those of the last line, or nothing. */
  predicate EndsAt(j: Journal, lines: seq<Bytes>, head: Option<Digest>, day: Option<int>) {
    if lines == [] then head.None? && day.None?
    else
      var last := j.codec.decode(lines[|lines| - 1]);
      last.Some? && head == Some(last.value.contentHash) && (j.kind == SnapshotKind ==> day == DateOf(last.value.entry))
  }

  lemma {:induction false} RecoverMeans(j: Journal, data: Bytes)
    ensures RecoverOutcome(j, data).Some? <==> LinkedLines(j, Lines(Trimmed(data)), None)
    ensures RecoverOutcome(j, data).Some? ==>
      EndsAt(j, Lines(Trimmed(data)), RecoverOutcome(j, data).value.head, RecoverOutcome(j, data).value.day)
  {
    CheckedIsLinked(j, Lines(Trimmed(data)), NOTHING);
  }

  class SupervisorStateStore {
    const journal: Journal
    var data: Bytes
    var head: Option<Digest>
    var recoveredDay: Option<int>

    constructor (journal: Journal, data: Bytes)
      ensures this.journal == journal && this.data == data && head == None && recoveredDay == None
    {
      this.journal, this.data, head, recoveredDay := journal, data, None, None;
    }

    /** The rewrite at the head of `_recover_journal`. */
    method DropTornTail()
      modifies this`data
      ensures data == Trimmed(old(data))
    {
      if data == [] || data[|data| - 1] == LF {
        CommittedOfWhole(data);
        return;
      }
      var n := |data|;
      while n > 0 && data[n - 1] != LF
        invariant 0 <= n <= |data| && data == old(data)
        invariant CommittedLength(data) == CommittedLength(data[..n])
      {
        assert data[..n][..n - 1] == data[..n - 1];
        n := n - 1;
      }
      var committed := if n == 0 then data else data[..n - 1];
      data := committed + if committed != [] then [LF] else [];
      if n > 1 { assert data == old(data)[..n]; }
    }

    /** `_recover_journal`. */
    method Recover() returns (ok: bool)
      requires recoveredDay == None
      modifies this
      ensures data == Trimmed(old(data))
      ensures ok <==> RecoverOutcome(journal, old(data)).Some?
      ensures ok ==> RecoverOutcome(journal, old(data)) == Some(Recovered(head, recoveredDay))
      ensures !ok ==> head == old(head)
      ensures ok <==> LinkedLines(journal, Lines(Trimmed(old(data))), None)
      ensures ok ==> EndsAt(journal, Lines(data), head, recoveredDay)
    {
      RecoverMeans(journal, data);
      DropTornTail();
      var previous: Option<Digest> := None;
      var rest := data;
      while rest != []
        invariant data == Trimmed(old(data)) && head == old(head)
        invariant CheckLines(journal, Lines(rest), Recovered(previous, recoveredDay)) == RecoverOutcome(journal, old(data))
        decreases |rest|
      {
        var n := FirstBreak(rest);
        var line := rest[..n];
        assert Lines(rest)[1..] == Lines(AfterBreak(rest, n));
        rest := AfterBreak(rest, n);
        var decoded := journal.codec.decode(line);
        if decoded.None? { return false; }
        var record := decoded.value;
        if record != Seal(journal, record.entry, previous) { return false; }
        previous := Some(record.contentHash);
        if journal.kind == SnapshotKind {
          if !record.entry.SnapshotEntry? { return false; }
          recoveredDay := Some(record.entry.day);
        }
      }
      head := previous;
      return true;
    }

    /** `append_event` and `append_daily_snapshot`. */
    method Append(entry: Entry) returns (digest: Digest)
      modifies this`data, this`head
      ensures data == old(data) + Frame(journal.codec.encode(Seal(journal, entry, old(head))))
      ensures head == Some(digest) && digest == Seal(journal, entry, old(head)).contentHash
      ensures journal.codec.Sound() ==>
        && |old(data)| < |data| && data[..|old(data)|] == old(data) && data[|data| - 1] == LF
        && var written := journal.codec.decode(data[|old(data)|..|data| - 1]);
           && written.Some? && written.value.entry == entry && written.value.previous == old(head)
           && written.value.kind == journal.kind && written.value.campaign == journal.campaign
           && digest == written.value.contentHash
           && digest == journal.codec.hashOf(journal.kind, journal.campaign, old(head), entry)
    {
      var record := Seal(journal, entry, head);
      data := data + journal.codec.encode(record) + [LF];
      head := Some(record.contentHash);
      assert data[|old(data)|..|data| - 1] == journal.codec.encode(record);
      return record.contentHash;
    }
  }

  lemma {:induction false} CommittedOfWhole(data: Bytes)
    requires data == [] || data[|data| - 1] == LF
    ensures CommittedLength(data) == |data|
  {
  }

  // ----- the records of a file -----

  function Records(codec: Codec, records: seq<Record>): (r: seq<Bytes>)
    ensures |r| == |records| && forall i | 0 <= i < |r| :: r[i] == codec.encode(records[i])
  {
    seq(|records|, i requires 0 <= i < |records| => codec.encode(records[i]))
  }

  function FileOf(codec: Codec, records: seq<Record>): Bytes { Frames(Records(codec, records)) }

  /** Head and last day after a chain of records. */
  function Position(j: Journal, records: seq<Record>): Recovered
    decreases |records|
  {
    if records == [] then NOTHING
    else Beyond(j, records[|records| - 1], Position(j, records[..|records| - 1]))
  }

  ghost predicate Chained(j: Journal, records: seq<Record>) {
    forall i | 0 <= i < |records| :: Continues(j, records[i], Position(j, records[..i]))
  }

  lemma {:induction false} PositionHead(j: Journal, records: seq<Record>)
    ensures Position(j, records).head == if records == [] then None else Some(records[|records| - 1].contentHash)
  {
  }

  /** A chain is what it is called: the first record points nowhere, every other
      one to its predecessor, each under the hash of its own fields. */
  lemma {:induction false} ChainedIsLinked(j: Journal, records: seq<Record>)
    ensures Chained(j, records) <==>
      forall i | 0 <= i < |records| ::
        LinkedTo(j, records[i], if i == 0 then None else Some(records[i - 1].contentHash))
  {
    forall i | 0 <= i < |records|
      ensures Continues(j, records[i], Position(j, records[..i])) <==>
              LinkedTo(j, records[i], if i == 0 then None else Some(records[i - 1].contentHash))
    {
      PositionHead(j, records[..i]);
      ContinuesIsLinked(j, records[i], Position(j, records[..i]));
    }
  }

  lemma {:induction false} ChainedAppend(j: Journal, records: seq<Record>, r: Record)
    requires Chained(j, records) && Continues(j, r, Position(j, records))
    ensures Chained(j, records + [r]) && Position(j, records + [r]) == Beyond(j, r, Position(j, records))
    ensures FileOf(j.codec, records + [r]) == FileOf(j.codec, records) + Frame(j.codec.encode(r))
  {
    var all := records + [r];
    assert all[..|records|] == records;
    forall i | 0 <= i < |all| ensures Continues(j, all[i], Position(j, all[..i])) {
      if i < |records| { assert all[..i] == records[..i]; }
    }
    assert Records(j.codec, all)[..|records|] == Records(j.codec, records);
  }

  lemma {:induction false} CheckOwnLines(j: Journal, records: seq<Record>, i: nat)
    requires j.codec.Sound() && Chained(j, records) && i <= |records|
    ensures CheckLines(j, Records(j.codec, records)[i..], Position(j, records[..i])) == Some(Position(j, records))
    decreases |records| - i
  {
    var lines := Records(j.codec, records)[i..];
    if i == |records| {
      assert records[..i] == records;
    } else {
      assert records[..i + 1][..i] == records[..i];
      assert lines[1..] == Records(j.codec, records)[i + 1..];
      assert j.codec.decode(lines[0]) == Some(records[i]);
      CheckOwnLines(j, records, i + 1);
    }
  }

  lemma {:induction false} OwnFileRecovers(j: Journal, records: seq<Record>)
    requires j.codec.Sound() && Chained(j, records)
    ensures CheckLines(j, Lines(FileOf(j.codec, records)), NOTHING) == Some(Position(j, records))
  {
    var lines := Records(j.codec, records);
    forall i | 0 <= i < |lines| ensures Unbroken(lines[i]) {
      assert LF !in j.codec.encode(records[i]) && CR !in j.codec.encode(records[i]);
    }
    LinesOfFrames(lines);
    CheckOwnLines(j, records, 0);
    assert lines[0..] == lines && records[..0] == [];
  }

  /** A file of complete records followed by part of the next one. */
  ghost predicate TornFile(j: Journal, data: Bytes, records: seq<Record>, next: Record, torn: nat) {
    && Chained(j, records) && Continues(j, next, Position(j, records)) && torn <= |j.codec.encode(next)|
    && data == FileOf(j.codec, records) + j.codec.encode(next)[..torn]
  }

  lemma {:induction false} TornTrimmed(j: Journal, data: Bytes, records: seq<Record>, next: Record, torn: nat)
    requires j.codec.Sound() && TornFile(j, data, records, next, torn)
    ensures Trimmed(data) ==
      if records == [] && torn > 0 then j.codec.encode(next)[..torn] + [LF] else FileOf(j.codec, records)
  {
    var tail, file := j.codec.encode(next)[..torn], FileOf(j.codec, records);
    assert LF !in j.codec.encode(next);
    assert LF !in tail;
    CommittedOfTorn(Records(j.codec, records), tail);
    assert data[..|file|] == file;
    if records != [] {
      assert j.codec.encode(records[|records| - 1]) != [];
      assert |file| > 1;
    }
  }

  lemma {:induction false} OneLine(j: Journal, line: Bytes, at: Recovered)
    requires Unbroken(line)
    ensures CheckLines(j, Lines(line + [LF]), at) ==
      match j.codec.decode(line)
      case None => None
      case Some(r) => if Continues(j, r, at) then Some(Beyond(j, r, at)) else None
  {
    LinesOfFrame(line, []);
    assert Frame(line) + [] == line + [LF];
    assert Lines(line + [LF]) == [line];
    assert [line][1..] == [];
  }

  /** Recovery of a torn file, exactly.  With a committed line before it, or
      with nothing torn, the tail goes and the chain stands.  A first record
      that is torn anywhere before its end makes the start fail; one that lacks
      only its newline is adopted. */
  lemma {:induction false} RecoveryExact(j: Journal, data: Bytes, records: seq<Record>, next: Record, torn: nat)
    requires j.codec.Sound() && TornFile(j, data, records, next, torn)
    ensures RecoverOutcome(j, data) ==
      if records != [] || torn == 0 then Some(Position(j, records))
      else if torn == |j.codec.encode(next)| then Some(Beyond(j, next, NOTHING))
      else None
  {
    TornTrimmed(j, data, records, next, torn);
    if records == [] && torn > 0 {
      var line := j.codec.encode(next)[..torn];
      assert LF !in j.codec.encode(next) && CR !in j.codec.encode(next);
      assert Unbroken(line);
      OneLine(j, line, NOTHING);
      if torn == |j.codec.encode(next)| { assert line == j.codec.encode(next); }
      assert Position(j, records) == NOTHING;
    } else {
      OwnFileRecovers(j, records);
    }
  }

  /** A first record torn before its end fails not once but for ever: the start
      itself turned it into a complete line. */
  lemma {:induction false} TornFirstRecordStays(j: Journal, data: Bytes, next: Record, torn: nat)
    requires j.codec.Sound() && TornFile(j, data, [], next, torn) && 0 < torn < |j.codec.encode(next)|
    ensures RecoverOutcome(j, data).None?
    ensures Trimmed(Trimmed(data)) == Trimmed(data) && RecoverOutcome(j, Trimmed(data)).None?
  {
  }

  /** How many whole records the first `kept` bytes of the file hold. */
  function Covered(codec: Codec, records: seq<Record>, kept: nat): (n: nat)
    requires kept < |FileOf(codec, records)|
    ensures n < |records| && |FileOf(codec, records[..n])| <= kept
    decreases |records|
  {
    var front := records[..|records| - 1];
    if |FileOf(codec, front)| <= kept then |front|
    else
      var n := Covered(codec, front, kept);
      assert front[..n] == records[..n];
      n
  }

  lemma {:induction false} FileOfFront(codec: Codec, records: seq<Record>)
    requires records != []
    ensures FileOf(codec, records) ==
            FileOf(codec, records[..|records| - 1]) + Frame(codec.encode(records[|records| - 1]))
  {
    assert Records(codec, records)[..|records| - 1] == Records(codec, records[..|records| - 1]);
  }

  lemma {:induction false} FrameCut(file: Bytes, record: Bytes, kept: nat)
    requires |file| <= kept <= |file| + |record|
    ensures (file + Frame(record))[..kept] == file + record[..kept - |file|]
  {
  }

  lemma {:induction false} TakeOfPrefix(file: Bytes, rest: Bytes, kept: nat)
    requires kept <= |file|
    ensures (file + rest)[..kept] == file[..kept]
  {
  }

  /** The first `kept` bytes of the file are a torn file of its whole records. */
  ghost predicate TornCut(j: Journal, records: seq<Record>, kept: nat)
    requires kept < |FileOf(j.codec, records)|
  {
    var n := Covered(j.codec, records, kept);
    TornFile(j, FileOf(j.codec, records)[..kept], records[..n], records[n], kept - |FileOf(j.codec, records[..n])|)
  }

  lemma {:induction false} LastIsTorn(j: Journal, records: seq<Record>, kept: nat)
    requires Chained(j, records) && records != []
    requires |FileOf(j.codec, records[..|records| - 1])| <= kept < |FileOf(j.codec, records)|
    ensures TornCut(j, records, kept)
  {
    FileOfFront(j.codec, records);
    ChainedPrefix(j, records, |records| - 1);
    FrameCut(FileOf(j.codec, records[..|records| - 1]), j.codec.encode(records[|records| - 1]), kept);
  }

  lemma {:induction false} TornCutGrows(j: Journal, records: seq<Record>, kept: nat)
    requires records != [] && kept < |FileOf(j.codec, records[..|records| - 1])|
    requires TornCut(j, records[..|records| - 1], kept)
    ensures kept < |FileOf(j.codec, records)| && TornCut(j, records, kept)
  {
    var front := records[..|records| - 1];
    FileOfFront(j.codec, records);
    TakeOfPrefix(FileOf(j.codec, front), Frame(j.codec.encode(records[|front|])), kept);
    assert front[..Covered(j.codec, front, kept)] == records[..Covered(j.codec, front, kept)];
  }

  /** Any part of a journal file, cut off at the end, is such a torn file. */
  lemma {:induction false} PrefixIsTorn(j: Journal, records: seq<Record>, kept: nat)
    requires Chained(j, records) && kept < |FileOf(j.codec, records)|
    ensures TornCut(j, records, kept)
    decreases |records|
  {
    if |FileOf(j.codec, records[..|records| - 1])| <= kept {
      LastIsTorn(j, records, kept);
    } else {
      ChainedPrefix(j, records, |records| - 1);
      PrefixIsTorn(j, records[..|records| - 1], kept);
      TornCutGrows(j, records, kept);
    }
  }

  lemma {:induction false} FileGrows(codec: Codec, records: seq<Record>, n: nat)
    requires n <= |records|
    ensures FileOf(codec, records[..n]) <= FileOf(codec, records)
    decreases |records|
  {
    if n == |records| {
      assert records[..n] == records;
    } else {
      var front := records[..|records| - 1];
      FileOfFront(codec, records);
      FileGrows(codec, front, n);
      assert front[..n] == records[..n];
    }
  }

  /** The first m records are among the whole ones exactly if `kept` covers
      their bytes. */
  lemma {:induction false} CoveredExact(codec: Codec, records: seq<Record>, kept: nat, m: nat)
    requires kept < |FileOf(codec, records)| && m <= |records|
    ensures m <= Covered(codec, records, kept) <==> |FileOf(codec, records[..m])| <= kept
    decreases |records|
  {
    var front := records[..|records| - 1];
    if m == |records| {
      assert records[..m] == records;
    } else {
      assert front[..m] == records[..m];
      FileGrows(codec, front, m);
      if |FileOf(codec, front)| > kept { CoveredExact(codec, front, kept, m); }
    }
  }

  lemma {:induction false} FileIsTrimmed(j: Journal, records: seq<Record>)
    ensures Trimmed(FileOf(j.codec, records)) == FileOf(j.codec, records)
  {
  }

  lemma {:induction false} ChainedPrefix(j: Journal, records: seq<Record>, n: nat)
    requires Chained(j, records) && n <= |records|
    ensures Chained(j, records[..n])
  {
  }
}

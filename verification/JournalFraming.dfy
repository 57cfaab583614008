/**
 Newline framing of append-only journal files: how records become bytes, how
 `File.ReadLines` and `bytes.splitlines` cut them again, and where the
 committed part of a torn file ends.
 */
module JournalFraming {
  import opened EvidenceModel

  function Frame(record: Bytes): Bytes { record + [LF] }

  function Frames(records: seq<Bytes>): Bytes {
    if records == [] then []
    else Frames(records[..|records| - 1]) + Frame(records[|records| - 1])
  }

  predicate Unbroken(record: Bytes) { LF !in record && CR !in record }

  /** Index of the first line break, or the length. */
  function FirstBreak(data: Bytes): (n: nat)
    ensures n <= |data|
    ensures Unbroken(data[..n])
    ensures n < |data| ==> data[n] == LF || data[n] == CR
  {
    if data == [] || data[0] == LF || data[0] == CR then 0
    else
      var n := 1 + FirstBreak(data[1..]);
      assert data[..n] == [data[0]] + data[1..][..n - 1];
      n
  }

  /** What remains after the line break at `n`; CR LF is one break. */
  function AfterBreak(data: Bytes, n: nat): (rest: Bytes)
    requires n <= |data| && data != []
    ensures |rest| < |data|
  {
    if n == |data| then []
    else if data[n] == CR && n + 1 < |data| && data[n + 1] == LF then data[n + 2..]
    else data[n + 1..]
  }

  function Lines(data: Bytes): seq<Bytes>
    decreases |data|
  {
    if data == [] then []
    else
      var n := FirstBreak(data);
      [data[..n]] + Lines(AfterBreak(data, n))
  }

  /** Length of the data up to and including its last newline. */
  function CommittedLength(data: Bytes): (n: nat)
    ensures n <= |data|
    ensures LF !in data[n..]
    ensures n > 0 ==> data[n - 1] == LF
  {
    if data == [] then 0
    else if data[|data| - 1] == LF then |data|
    else
      var n := CommittedLength(data[..|data| - 1]);
      assert data[n..] == data[..|data| - 1][n..] + [data[|data| - 1]];
      n
  }

  lemma {:induction false} FirstBreakOf(record: Bytes, rest: Bytes)
    requires Unbroken(record) && rest != [] && (rest[0] == LF || rest[0] == CR)
    ensures FirstBreak(record + rest) == |record|
  {
    var data := record + rest;
    if record == [] {
      assert data == rest;
    } else {
      assert record[0] in record;
      assert data[1..] == record[1..] + rest;
      FirstBreakOf(record[1..], rest);
    }
  }

  lemma {:induction false} LinesOfFrame(record: Bytes, rest: Bytes)
    requires Unbroken(record)
    ensures Lines(Frame(record) + rest) == [record] + Lines(rest)
  {
    var data := Frame(record) + rest;
    assert data == record + ([LF] + rest);
    FirstBreakOf(record, [LF] + rest);
    assert data[..|record|] == record;
    assert data[|record|] == LF;
    assert data[|record| + 1..] == rest;
  }

  /** The other two breaks end a line as a newline does, and CR LF ends one line,
      not two. */
  lemma {:induction false} LinesOfCarriageReturns(record: Bytes, rest: Bytes)
    requires Unbroken(record)
    ensures Lines(record + [CR, LF] + rest) == [record] + Lines(rest)
    ensures (rest == [] || rest[0] != LF) ==> Lines(record + [CR] + rest) == [record] + Lines(rest)
  {
    var both, one := record + [CR, LF] + rest, record + [CR] + rest;
    assert both == record + ([CR, LF] + rest) && one == record + ([CR] + rest);
    FirstBreakOf(record, [CR, LF] + rest);
    FirstBreakOf(record, [CR] + rest);
    assert both[..|record|] == record && both[|record|] == CR && both[|record| + 1] == LF && both[|record| + 2..] == rest;
    assert one[..|record|] == record && one[|record|] == CR && one[|record| + 1..] == rest;
    if rest != [] { assert one[|record| + 1] == rest[0]; }
  }

  lemma {:induction false} FramesHead(records: seq<Bytes>)
    requires records != []
    ensures Frames(records) == Frame(records[0]) + Frames(records[1..])
  {
    if |records| == 1 {
      assert records[..0] == [] && records[1..] == [];
    } else {
      var front := records[..|records| - 1];
      FramesHead(front);
      assert front[1..] == records[1..][..|records| - 2];
      assert Frames(records) == Frame(records[0]) + (Frames(front[1..]) + Frame(records[|records| - 1]));
    }
  }

  /** Cutting a journal file into lines gives back exactly its records. */
  lemma {:induction false} LinesOfFrames(records: seq<Bytes>)
    requires forall i | 0 <= i < |records| :: Unbroken(records[i])
    ensures Lines(Frames(records)) == records
  {
    if records != [] {
      FramesHead(records);
      LinesOfFrame(records[0], Frames(records[1..]));
      LinesOfFrames(records[1..]);
    }
  }

  /** The committed part of a file ends where its torn tail begins. */
  lemma {:induction false} CommittedOfTorn(records: seq<Bytes>, torn: Bytes)
    requires LF !in torn
    ensures CommittedLength(Frames(records) + torn) == |Frames(records)|
  {
    var data := Frames(records) + torn;
    if torn == [] {
      assert data == Frames(records);
      if records != [] { assert data[|data| - 1] == LF; }
    } else {
      var front := torn[..|torn| - 1];
      assert data[..|data| - 1] == Frames(records) + front;
      assert data[|data| - 1] == torn[|torn| - 1] && torn[|torn| - 1] in torn;
      CommittedOfTorn(records, front);
    }
  }
}

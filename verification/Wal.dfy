/** The write-ahead log: one open segment, and the files of the segments before it. */
module Wal {
  import opened Options
  import opened Bytes
  import opened WalFormat
  import opened WalSegment
  import opened SegmentView
  import opened WalReader

  datatype Span = Span(start: nat, end: nat)

  /** The open segment's stream: its records, and the padding that a flush may have put behind them. */
  ghost predicate Streams(bytes: seq<byte>, records: seq<seq<byte>>) {
    var s := Stream(records);
    && |s| <= |bytes| && bytes == s + Zeros(|bytes| - |s|)
    && (|bytes| == |s| || |bytes| == Place(|s|))
  }

  lemma Replaced(s: seq<byte>, z: seq<byte>, e: seq<byte>, e': seq<byte>)
    requires z + e == e'
    ensures (s + z) + e == s + e'
  {
    assert (s + z) + e == s + (z + e);
  }

  lemma AppendedTo(bytes: seq<byte>, s: seq<byte>, record: seq<byte>)
    requires record != [] && |s| <= |bytes| && bytes == s + Zeros(|bytes| - |s|)
    requires |bytes| == |s| || |bytes| == Place(|s|)
    ensures bytes + Encode(|bytes|, record) == s + Encode(|s|, record)
  {
    PaddedEncode(|s|, |bytes|, record);
    Replaced(s, Zeros(|bytes| - |s|), Encode(|bytes|, record), Encode(|s|, record));
  }

  lemma StreamsExactly(records: seq<seq<byte>>)
    ensures Streams(Stream(records), records)
  {
    AddNone(Stream(records));
  }

  /** Appending to the stream appends the record; an empty one leaves the padding as it is. */
  lemma StreamsSnoc(bytes: seq<byte>, records: seq<seq<byte>>, record: seq<byte>)
    requires Streams(bytes, records)
    ensures Streams(bytes + Encode(|bytes|, record), records + [record])
  {
    var s := Stream(records);
    StreamSnoc(records, record);
    if record == [] {
      NoMore(bytes);
      NoMore(s);
    } else {
      AppendedTo(bytes, s, record);
      StreamsExactly(records + [record]);
    }
  }

  lemma ZerosJoined(s: seq<byte>, a: nat, b: nat)
    ensures (s + Zeros(a)) + Zeros(b) == s + Zeros(a + b)
  {
  }

  /** What a flush puts behind the stream: nothing, or zeros to the end of a page that is begun. */
  predicate Fill(len: nat, fill: nat) {
    fill == 0 || (Offset(len) != 0 && fill == PAGE - Offset(len))
  }

  lemma PlaceIs(pos: nat)
    ensures Place(pos) != pos ==> Offset(pos) != 0 && Place(pos) == pos + (PAGE - Offset(pos)) && Offset(Place(pos)) == 0
  {
    PlaceHasRoom(pos);
  }

  /** A filled page stays a padded stream when it had no room for a header. */
  lemma StreamsFill(bytes: seq<byte>, records: seq<seq<byte>>, fill: nat)
    requires Streams(bytes, records) && Fill(|bytes|, fill) && (fill > 0 ==> !HasRoom(|bytes|))
    ensures Streams(bytes + Zeros(fill), records)
  {
    var s := Stream(records);
    ZerosJoined(s, |bytes| - |s|, fill);
    PlaceIs(|s|);
  }

  lemma ZerosBehind(file: seq<byte>, s: seq<byte>, t: nat)
    requires file == s + Zeros(t)
    ensures |file| == |s| + t && file[..|s|] == s && forall i :: |s| <= i < |file| ==> file[i] == 0
  {
  }

  /** A file that has the whole stream, and perhaps zeros to the end of the page, holds the records. */
  lemma StreamsHold(bytes: seq<byte>, records: seq<seq<byte>>, fill: nat)
    requires Streams(bytes, records) && Fill(|bytes|, fill)
    ensures Holds(bytes + Zeros(fill), records)
  {
    var s := Stream(records);
    ZerosJoined(s, |bytes| - |s|, fill);
    ZerosBehind(bytes + Zeros(fill), s, |bytes| - |s| + fill);
    PlaceIs(|s|);
  }

  function Flatten(logs: seq<seq<seq<byte>>>): seq<seq<byte>> {
    if logs == [] then [] else Flatten(logs[..|logs| - 1]) + logs[|logs| - 1]
  }

  lemma FlattenSnoc(logs: seq<seq<seq<byte>>>, last: seq<seq<byte>>)
    ensures Flatten(logs + [last]) == Flatten(logs) + last
  {
    assert (logs + [last])[..|logs|] == logs;
  }

  /** One more record in the last segment. */
  lemma FlattenMore(logs: seq<seq<seq<byte>>>, record: seq<byte>)
    requires logs != []
    ensures Flatten(logs[|logs| - 1 := logs[|logs| - 1] + [record]]) == Flatten(logs) + [record]
  {
    var n := |logs| - 1;
    assert logs[n := logs[n] + [record]] == logs[..n] + [logs[n] + [record]];
    FlattenSnoc(logs[..n], logs[n] + [record]);
  }

  /** The last record is this one, and begins here. */
  ghost predicate LastIs(records: seq<seq<byte>>, record: seq<byte>, at: nat) {
    records != [] && records[|records| - 1] == record && Begins(records, |records| - 1, at)
  }

  lemma LastAppended(records: seq<seq<byte>>, bytes: seq<byte>, record: seq<byte>)
    requires Streams(bytes, records)
    ensures LastIs(records + [record], record, |bytes|)
  {
    assert (records + [record])[..|records|] == records;
  }

  lemma {:induction false} FilledAppend(a: seq<seq<byte>>, b: seq<seq<byte>>)
    ensures Filled(a + b) == Filled(a) + Filled(b)
  {
    if a == [] {
      assert a + b == b;
    } else {
      assert (a + b)[1..] == a[1..] + b;
      FilledAppend(a[1..], b);
    }
  }

  /** What is read from a segment's start on is all that follows, without the empty records. */
  lemma {:induction false} RestIsFlat(g: Log, k: nat)
    requires k < |g.records|
    ensures Filled(Flatten(g.records[..k])) + Rest(g, k, 0) == Filled(Flatten(g.records))
    decreases |g.records| - k
  {
    var rs := g.records[k];
    assert rs[0..] == rs && g.records[..k + 1] == g.records[..k] + [rs];
    FlattenSnoc(g.records[..k], rs);
    FilledAppend(Flatten(g.records[..k]), rs);
    if k + 1 < |g.records| {
      RestIsFlat(g, k + 1);
    } else {
      assert g.records[..k + 1] == g.records;
    }
  }

  /** No segment but the last is without a record: the reader takes an empty one for the end of the log. */
  ghost predicate Solid(logs: seq<seq<seq<byte>>>) {
    forall k :: 0 <= k < |logs| - 1 ==> HasFilled(logs[k])
  }

  /** Files, and the records of each. */
  ghost predicate AllHold(files: seq<seq<byte>>, logs: seq<seq<seq<byte>>>) {
    |files| == |logs| && forall k :: 0 <= k < |files| ==> Holds(files[k], logs[k])
  }

  lemma AllHoldSnoc(files: seq<seq<byte>>, logs: seq<seq<seq<byte>>>, file: seq<byte>, records: seq<seq<byte>>)
    requires AllHold(files, logs) && Holds(file, records)
    ensures AllHold(files + [file], logs + [records])
  {
    var fs, ls := files + [file], logs + [records];
    forall k | 0 <= k < |fs| ensures Holds(fs[k], ls[k]) {
      if k < |files| { assert fs[k] == files[k] && ls[k] == logs[k]; }
    }
  }

  function WithRecord(logs: seq<seq<seq<byte>>>, record: seq<byte>): (more: seq<seq<seq<byte>>>)
    requires logs != []
    ensures |more| == |logs| && more[..|logs| - 1] == logs[..|logs| - 1]
  {
    logs[|logs| - 1 := logs[|logs| - 1] + [record]]
  }

  /** The stream, the order of records and the segments after one more record. */
  lemma RecordAppended(logs: seq<seq<seq<byte>>>, bytes: seq<byte>, record: seq<byte>)
    requires logs != [] && Streams(bytes, logs[|logs| - 1])
    ensures
      var more := WithRecord(logs, record);
      && Flatten(more) == Flatten(logs) + [record]
      && Streams(bytes + Encode(|bytes|, record), more[|logs| - 1]) && LastIs(more[|logs| - 1], record, |bytes|)
  {
    var rs := logs[|logs| - 1];
    FlattenMore(logs, record);
    StreamsSnoc(bytes, rs, record);
    LastAppended(rs, bytes, record);
  }

  /** The records of every segment end within the capacity, and none begins at the last byte of a page. */
  ghost predicate Fine(logs: seq<seq<seq<byte>>>, capacity: nat) {
    forall k :: 0 <= k < |logs| ==> FineSegment(logs[k], capacity)
  }

  ghost predicate FineSegment(rs: seq<seq<byte>>, capacity: nat) {
    Readable(rs) && |Stream(rs)| <= capacity
  }

  /** A record that is appended behind a stream of that length ends within the capacity, and does not begin
      at the last byte of a page. */
  predicate Lands(length: nat, n: nat, capacity: nat) {
    n > 0 ==> Offset(length) != PAGE - 1 && End(length, n) <= capacity
  }

  lemma FineSnoc(rs: seq<seq<byte>>, record: seq<byte>, capacity: nat)
    ensures FineSegment(rs + [record], capacity) <==> FineSegment(rs, capacity) && Lands(|Stream(rs)|, |record|, capacity)
  {
    var rs' := rs + [record];
    StreamSnoc(rs, record);
    EncodeEnd(|Stream(rs)|, record);
    assert rs'[..|rs|] == rs;
    forall j | 0 <= j < |rs| ensures At(rs', j) == At(rs, j) { assert rs'[..j] == rs[..j]; }
    assert forall j :: 0 <= j < |rs| ==> rs'[j] == rs[j];
    assert At(rs', |rs|) == |Stream(rs)|;
    assert rs'[|rs|] == record;
  }

  lemma FineRecord(logs: seq<seq<seq<byte>>>, record: seq<byte>, capacity: nat)
    requires logs != []
    ensures Fine(WithRecord(logs, record), capacity) <==>
      Fine(logs, capacity) && Lands(|Stream(logs[|logs| - 1])|, |record|, capacity)
  {
    hide FineSegment, Lands, Stream;
    var n, more := |logs| - 1, WithRecord(logs, record);
    FineSnoc(logs[n], record, capacity);
    forall k | 0 <= k < n ensures more[k] == logs[k] { assert more[..n][k] == logs[..n][k]; }
    assert more[n] == logs[n] + [record];
  }

  lemma FineEmpty(logs: seq<seq<seq<byte>>>, capacity: nat)
    ensures Fine(logs + [[]], capacity) <==> Fine(logs, capacity)
  {
    var more := logs + [[]];
    assert forall k :: 0 <= k < |logs| ==> more[k] == logs[k];
    assert FineSegment(more[|logs|], capacity);
  }

  /** A file is no longer than the capacity exactly when the stream in it is not: padding ends with the page. */
  lemma FileFits(file: seq<byte>, rs: seq<seq<byte>>, capacity: nat)
    requires Holds(file, rs) && capacity % PAGE == 0
    ensures |file| <= capacity <==> |Stream(rs)| <= capacity
  {
    var n := |Stream(rs)|;
    OffsetIs(n);
    if n < |file| && n <= capacity {
      assert |file| == n - n % PAGE + PAGE && n % PAGE != 0;
      var q, c := n / PAGE, capacity / PAGE;
      assert n == q * PAGE + n % PAGE && capacity == c * PAGE;
      assert q < c;
    }
  }

  /** Every segment in its own file. */
  lemma FilesFit(files: seq<seq<byte>>, logs: seq<seq<seq<byte>>>, capacity: nat)
    requires AllHold(files, logs) && capacity % PAGE == 0
    ensures Opens(files, capacity) && (forall k :: 0 <= k < |logs| ==> Readable(logs[k])) <==> Fine(logs, capacity)
  {
    forall k | 0 <= k < |logs| ensures |files[k]| <= capacity && Readable(logs[k]) <==> FineSegment(logs[k], capacity) {
      FileFits(files[k], logs[k], capacity);
    }
  }

  /** The log of some files. */
  function LogOf(files: seq<seq<byte>>, logs: seq<seq<seq<byte>>>, capacity: nat): Log {
    Log(files, logs, capacity, 0)
  }

  /** A log can be opened and read back from position 0, every record with the position behind it, exactly when
      it is fine and has no segment without records before one with some. */
  lemma LogReadsBackIff(files: seq<seq<byte>>, logs: seq<seq<seq<byte>>>, capacity: nat)
    requires capacity > 0 && capacity % PAGE == 0 && AllHold(files, logs) && logs != []
    ensures
      var g := LogOf(files, logs, capacity);
      Opens(files, capacity) && Gives(g, 0, Items(g, 0, 0)) <==> Fine(logs, capacity) && NoHole(logs, 0)
  {
    var g := LogOf(files, logs, capacity);
    FilesFit(files, logs, capacity);
    NothingBefore(logs[0]);
    ClearIff(g, 0, 0);
    assert (forall k :: 0 <= k < |logs| ==> Readable(logs[k])) <==> ReadableFrom(logs[0], 0) && ReadableAfter(logs, 0);
    if Opens(files, capacity) { GivesIff(g, 0, 0); }
  }

  /** What is read are the records appended, in order, but for empty ones. */
  lemma ItemsAreRecords(g: Log)
    requires g.records != []
    ensures DataOf(Items(g, 0, 0)) == Filled(Flatten(g.records))
  {
    ItemsData(g, 0, 0);
    RestIsFlat(g, 0);
    assert g.records[..0] == [];
    NoFront(Rest(g, 0, 0));
  }

  /** Where an append has put a record: its segment, its number there, and the offset it returned. */
  datatype Issue = Issue(segment: nat, index: nat, at: nat)

  ghost predicate IssueOk(logs: seq<seq<seq<byte>>>, i: Issue) {
    i.segment < |logs| && i.index < |logs[i.segment]| && Begins(logs[i.segment], i.index, i.at)
  }

  ghost predicate IssuesOk(logs: seq<seq<seq<byte>>>, issued: seq<Issue>) {
    forall j :: 0 <= j < |issued| ==> IssueOk(logs, issued[j])
  }

  function RecordOf(logs: seq<seq<seq<byte>>>, i: Issue): seq<byte> {
    if i.segment < |logs| && i.index < |logs[i.segment]| then logs[i.segment][i.index] else []
  }

  /** Reading at the position returned gives the record, and the position behind it. */
  ghost predicate Finds(files: seq<seq<byte>>, logs: seq<seq<seq<byte>>>, capacity: nat, i: Issue)
    requires capacity > 0 && IssueOk(logs, i)
  {
    var g := LogOf(files, logs, capacity);
    ReadLog(g, Pos(g, i.segment, i.at)) == Ok(Some(Found(RecordOf(logs, i), Pos(g, i.segment, At(logs[i.segment], i.index + 1)))))
  }

  lemma FindsIff(files: seq<seq<byte>>, logs: seq<seq<seq<byte>>>, capacity: nat, i: Issue)
    requires capacity > 0 && AllHold(files, logs) && Opens(files, capacity) && IssueOk(logs, i) && RecordOf(logs, i) != []
    ensures Finds(files, logs, capacity, i) <==> Offset(i.at) != PAGE - 1
  {
    hide Stream, Offset, Begins, At, ReadLog, Pos;
    assert Holds(files[i.segment], logs[i.segment]);
    RecordReadIff(LogOf(files, logs, capacity), i.segment, logs[i.segment], i.index, i.at);
  }

  lemma BeginsStill(rs: seq<seq<byte>>, record: seq<byte>, i: nat, at: nat)
    requires i < |rs|
    ensures Begins(rs + [record], i, at) <==> Begins(rs, i, at)
  {
    assert (rs + [record])[..i] == rs[..i];
  }

  /** Positions stay good when the log grows. */
  lemma IssuesRecord(logs: seq<seq<seq<byte>>>, issued: seq<Issue>, record: seq<byte>, at: nat)
    requires logs != [] && IssuesOk(logs, issued) && LastIs(WithRecord(logs, record)[|logs| - 1], record, at)
    ensures IssuesOk(WithRecord(logs, record), issued + [Issue(|logs| - 1, |logs[|logs| - 1]|, at)])
    ensures IssuesOk(WithRecord(logs, record), issued)
  {
    var n, more := |logs| - 1, WithRecord(logs, record);
    assert more[n] == logs[n] + [record];
    forall j | 0 <= j < |issued| ensures IssueOk(more, issued[j]) {
      var i := issued[j];
      assert IssueOk(logs, i);
      if i.segment < n { assert more[i.segment] == more[..n][i.segment] == logs[i.segment]; }
      else { BeginsStill(logs[n], record, i.index, i.at); }
    }
  }

  lemma IssuesEmpty(logs: seq<seq<seq<byte>>>, issued: seq<Issue>)
    requires IssuesOk(logs, issued)
    ensures IssuesOk(logs + [[]], issued)
  {
    forall j | 0 <= j < |issued| ensures IssueOk(logs + [[]], issued[j]) { assert IssueOk(logs, issued[j]); }
  }

  lemma NoBehind(s: seq<seq<byte>>)
    ensures s + [] == s
  {
  }

  lemma NoFront(s: seq<seq<byte>>)
    ensures [] + s == s
  {
  }

  /** The check never allows more than in an empty segment. */
  lemma MostInEmpty(pageStart: nat, used: nat, capacity: nat)
    requires pageStart % PAGE == 0 && capacity % PAGE == 0 && pageStart < capacity && used <= PAGE
    ensures Remaining(pageStart, used, capacity) <= Remaining(0, 0, capacity)
  {
    var p, c := pageStart / PAGE, capacity / PAGE;
    assert pageStart == p * PAGE && capacity == c * PAGE && p < c;
    assert (capacity - pageStart) / PAGE == c - p;
  }

  /** The records that fit a segment. */
  function Fitting(records: seq<seq<byte>>, most: nat): seq<seq<byte>> {
    if records == [] then []
    else
      var n := |records| - 1;
      Fitting(records[..n], most) + if |records[n]| <= most then [records[n]] else []
  }

  lemma FittingNext(all: seq<seq<byte>>, records: seq<seq<byte>>, n: nat, most: nat)
    requires n < |records|
    ensures all + Fitting(records[..n + 1], most) ==
      (all + Fitting(records[..n], most)) + if |records[n]| <= most then [records[n]] else []
  {
    assert records[..n + 1][..n] == records[..n];
  }

  /** Only the last segment, or one that has a record by then, may be left without one. */
  lemma SolidRecord(logs: seq<seq<seq<byte>>>, record: seq<byte>)
    requires logs != []
    ensures Solid(WithRecord(logs, record)) <==> Solid(logs)
  {
    var n, more := |logs| - 1, WithRecord(logs, record);
    forall k | 0 <= k < n ensures more[k] == logs[k] { assert more[..n][k] == logs[..n][k]; }
  }

  lemma SolidEmpty(logs: seq<seq<seq<byte>>>)
    requires logs != []
    ensures Solid(logs + [[]]) <==> Solid(logs) && HasFilled(logs[|logs| - 1])
  {
    var more := logs + [[]];
    assert forall k :: 0 <= k < |logs| ==> more[k] == logs[k];
    assert more[|logs| - 1] == logs[|logs| - 1];
  }

  lemma SolidNoHole(logs: seq<seq<seq<byte>>>)
    requires Solid(logs)
    ensures NoHole(logs, 0)
  {
  }

  /** The segments after an append: a new one if the record did not fit, and the record in the last. */
  function Appended(logs: seq<seq<seq<byte>>>, record: seq<byte>, fits: bool, ok: bool): seq<seq<seq<byte>>>
    requires logs != []
  {
    var room := if fits then logs else logs + [[]];
    if ok then WithRecord(room, record) else room
  }

  lemma LogsAppended(logs: seq<seq<seq<byte>>>, record: seq<byte>, fits: bool, ok: bool, capacity: nat)
    requires logs != [] && (fits ==> ok) && (ok && !fits ==> HasFilled(logs[|logs| - 1]))
    ensures
      var more := Appended(logs, record, fits, ok);
      && Flatten(more) == Flatten(logs) + (if ok then [record] else [])
      && (Solid(more) <==> Solid(logs) && (ok || HasFilled(logs[|logs| - 1])))
      && (Fine(more, capacity) <==>
            Fine(logs, capacity) && (!ok || Lands(if fits then |Stream(logs[|logs| - 1])| else 0, |record|, capacity)))
  {
    hide Stream, Flatten, Solid, Fine, Lands, HasFilled;
    var room := if fits then logs else logs + [[]];
    FineEmpty(logs, capacity);
    SolidEmpty(logs);
    FlattenSnoc(logs, []);
    NoBehind(Flatten(logs));
    FineRecord(room, record, capacity);
    SolidRecord(room, record);
    FlattenMore(room, record);
    EmptyStream();
  }

  lemma EmptyStream()
    ensures |Stream([])| == 0
  {
  }

  /** Where a record goes when no flush comes between the appends: in a new segment when this one is full, and
      nowhere when it fits no segment. */
  function Placed(logs: seq<seq<seq<byte>>>, record: seq<byte>, capacity: nat): (more: seq<seq<seq<byte>>>)
    requires logs != [] && capacity % PAGE == 0
    ensures more != []
  {
    var room := if TakesAfter(|Stream(logs[|logs| - 1])|, |record|, capacity) then logs else logs + [[]];
    if |record| <= Remaining(0, 0, capacity) then WithRecord(room, record) else room
  }

  /** The segments of a log that is written without a flush in between. */
  function Segments(records: seq<seq<byte>>, capacity: nat): (logs: seq<seq<seq<byte>>>)
    requires capacity % PAGE == 0
    ensures logs != []
  {
    if records == [] then [[]]
    else
      var n := |records| - 1;
      Placed(Segments(records[..n], capacity), records[n], capacity)
  }

  lemma SegmentsNext(records: seq<seq<byte>>, n: nat, capacity: nat)
    requires n < |records| && capacity % PAGE == 0
    ensures Segments(records[..n + 1], capacity) == Placed(Segments(records[..n], capacity), records[n], capacity)
  {
    assert records[..n + 1][..n] == records[..n];
  }

  class Wal {
    const capacity: nat
    var closed: seq<seq<byte>>
    var open: Segment
    ghost var logs: seq<seq<seq<byte>>> // the records of every segment
    ghost var issued: seq<Issue>        // what appends have returned

    ghost predicate Valid()
      reads this, open, open.page
    {
      && capacity > 0 && capacity % PAGE == 0
      && open.Valid() && open.InBounds() && open.capacity == capacity && open.segno == |closed| + 1
      && |logs| == |closed| + 1
      && AllHold(closed, logs[..|closed|])
      && Streams(open.Bytes(), logs[|closed|])
      && IssuesOk(logs, issued)
    }

    /** Nothing but the records is in the open segment, and its page is the one that they end in. */
    ghost predicate Packed()
      requires Valid()
      reads this, open, open.page
    {
      |open.Bytes()| == |Stream(logs[|closed|])| && (open.pageAllocated == 0 ==> open.pageStart == 0)
    }

    lemma PackedFits(n: nat)
      requires Valid() && Packed()
      ensures open.SufficientCapacity(n) <==> TakesAfter(|Stream(logs[|closed|])|, n, capacity)
    {
      hide Stream, Streams, IssuesOk, AllHold;
      FillIs(open.pageStart, open.pageAllocated, |open.Bytes()|);
    }

    constructor (capacity: nat)
      requires capacity > 0 && capacity % PAGE == 0
      ensures Valid() && Packed() && logs == [[]] && issued == [] && this.capacity == capacity
      ensures fresh(open) && fresh(open.page)
    {
      this.capacity := capacity;
      closed := [];
      open := new Segment(1, capacity);
      logs := [[]];
      issued := [];
    }

    /** The files as they are on disk. */
    function Files(): seq<seq<byte>>
      reads this, open
    {
      closed + [open.file]
    }

    /** The length of the stream that a record of this size would be appended to. */
    ghost function Behind(n: nat): nat
      requires Valid()
      reads this, open, open.page
    {
      if open.SufficientCapacity(n) then |Stream(logs[|closed|])| else 0
    }

    /** A segment that is full for a record has one already, unless the record fits no segment. */
    lemma FullMeansRecords(n: nat)
      requires Valid() && !open.SufficientCapacity(n) && n <= Remaining(0, 0, capacity)
      ensures HasFilled(logs[|closed|])
    {
      var s := Stream(logs[|closed|]);
      assert |open.Bytes()| > 0;
      if s == [] { NoMore(s); }
      BytesMeanRecords(logs[|closed|]);
    }

    /** Brings the rest of the open segment to its file. */
    method CloseSegment()
      requires Valid()
      modifies open, open.page
      ensures Holds(open.file, logs[|closed|])
    {
      ghost var bytes, fill := open.Bytes(), 0;
      InPage(open.pageStart, open.pageAllocated);
      if open.Dirty() {
        fill := PAGE - open.pageAllocated;
        open.FlushPage(true);
      } else {
        AddNone(bytes);
        NoMore(open.file);
      }
      assert open.file == bytes + Zeros(fill);
      StreamsHold(bytes, logs[|closed|], fill);
    }

    lemma StreamsNone()
      ensures Streams([], [])
    {
      AddNone([]);
    }

    /** Closes the open segment and starts the next. */
    method Roll()
      requires Valid()
      modifies this, open, open.page
      ensures Valid() && fresh(open) && fresh(open.page)
      ensures logs == old(logs) + [[]] && issued == old(issued) && |closed| == old(|closed|) + 1
      ensures open.Bytes() == [] && open.pageAllocated == 0 && open.pageStart == 0
    {
      hide AllHold, IssuesOk, Stream, Holds;
      CloseSegment();
      AllHoldSnoc(closed, logs[..|closed|], open.file, logs[|closed|]);
      assert logs[..|closed|] + [logs[|closed|]] == logs;
      IssuesEmpty(logs, issued);
      closed := closed + [open.file];
      open := new Segment(|closed| + 1, capacity);
      logs := logs + [[]];
      assert logs[..|closed|] == old(logs);
      StreamsNone();
    }

    /** Appends to the open segment. */
    method AppendHere(record: seq<byte>) returns (r: Result<Span>, ghost at: nat)
      requires Valid()
      modifies this`logs, this`issued, open, open.page
      ensures Valid() && (r.Ok? <==> old(open.SufficientCapacity(|record|)))
      ensures logs == if r.Ok? then WithRecord(old(logs), record) else old(logs)
      ensures issued == old(issued) + if r.Ok? then [Issue(|closed|, |old(logs)[|closed|]|, at)] else []
      ensures r.Ok? ==>
        && r.value.start == Pos(LogOf([], logs, capacity), |closed|, at)
        && r.value.end == Pos(LogOf([], logs, capacity), |closed|, |open.Bytes()|)
      ensures r.Ok? ==> Flatten(logs) == Flatten(old(logs)) + [record] && LastIs(logs[|closed|], record, at)
      ensures r.Ok? && record != [] ==> |open.Bytes()| == |Stream(logs[|closed|])|
      ensures old(Packed()) ==> Packed()
    {
      hide Encode, Stream, Place, LastIs, Flatten, IssuesOk, AllHold, Zeros, Offset;
      var start := open.CurrentLsn();
      RecordAppended(logs, open.Bytes(), record);
      at := |open.Bytes()|;
      IssuesRecord(logs, issued, record, at);
      if record != [] { EndsExactly(open.Bytes(), logs[|closed|], record); } else { EmptyAdds(|open.Bytes()|, logs[|closed|]); }
      var end := open.Append(record);
      if end.None? { return Err(InvalidState), at; }
      issued := issued + [Issue(|closed|, |logs[|closed|]|, at)];
      logs := WithRecord(logs, record);
      StartIs(at);
      StartIs(|open.Bytes()|);
      return Ok(Span(start, end.value)), at;
    }

    /** Takes a new segment when the open one is full. */
    method MakeRoom(n: nat)
      requires Valid()
      modifies this, open, open.page
      ensures Valid() && (open == old(open) || (fresh(open) && fresh(open.page)))
      ensures open.SufficientCapacity(n) <==> n <= Remaining(0, 0, capacity)
      ensures old(open.SufficientCapacity(n)) ==> open.SufficientCapacity(n)
      ensures logs == (if old(open.SufficientCapacity(n)) then old(logs) else old(logs) + [[]]) && issued == old(issued)
      ensures !old(open.SufficientCapacity(n)) && n <= Remaining(0, 0, capacity) ==> HasFilled(old(logs)[|old(logs)| - 1])
      ensures old(Packed()) ==> Packed()
    {
      if open.SufficientCapacity(n) {
        MostInEmpty(open.pageStart, open.pageAllocated, capacity);
        return;
      }
      if n <= Remaining(0, 0, capacity) { FullMeansRecords(n); }
      Roll();
      EmptyStream();
    }

    /** A position of the open segment, as one of the log. */
    lemma StartIs(offset: nat)
      requires Valid()
      ensures open.SegmentStart() + offset == Pos(LogOf([], logs, capacity), |closed|, offset)
    {
    }

    /** Appends to the open segment, or to a new one. */
    method AppendSomewhere(record: seq<byte>) returns (r: Result<Span>, ghost at: nat)
      requires Valid()
      modifies this, open, open.page
      ensures Valid() && (open == old(open) || (fresh(open) && fresh(open.page)))
      ensures r.Ok? <==> |record| <= Remaining(0, 0, capacity)
      ensures old(open.SufficientCapacity(|record|)) ==> r.Ok?
      ensures r.Ok? && !old(open.SufficientCapacity(|record|)) ==> HasFilled(old(logs)[|old(logs)| - 1])
      ensures logs == Appended(old(logs), record, old(open.SufficientCapacity(|record|)), r.Ok?)
      ensures old(Packed()) ==> Packed()
      ensures r.Ok? ==>
        && r.value.start == Pos(LogOf([], logs, capacity), |closed|, at)
        && r.value.end == Pos(LogOf([], logs, capacity), |closed|, |open.Bytes()|)
        && LastIs(logs[|closed|], record, at) && issued == old(issued) + [Issue(|closed|, |logs[|closed|]| - 1, at)]
      ensures r.Ok? && record != [] ==> |open.Bytes()| == |Stream(logs[|closed|])|
    {
      hide Stream, LastIs, Flatten, IssuesOk, AllHold, Streams, Begins, HasFilled, Remaining, Encode, Pos, LogOf;
      MakeRoom(|record|);
      r, at := AppendHere(record);
    }

    /** Appends a record, in a new segment if this one is full. A record that is too large even for an
        empty segment makes the program panic; here it is an error. */
    method Append(record: seq<byte>) returns (r: Result<Span>, ghost at: nat)
      requires Valid()
      modifies this, open, open.page
      ensures Valid() && (open == old(open) || (fresh(open) && fresh(open.page)))
      ensures r.Ok? <==> |record| <= Remaining(0, 0, capacity)
      ensures Flatten(logs) == Flatten(old(logs)) + if r.Ok? then [record] else []
      ensures Solid(logs) <==> Solid(old(logs)) && (r.Ok? || HasFilled(old(logs)[|old(logs)| - 1]))
      ensures old(Packed()) ==> Packed() && logs == Placed(old(logs), record, capacity)
      ensures Fine(logs, capacity) <==> Fine(old(logs), capacity) && (r.Err? || Lands(old(Behind(|record|)), |record|, capacity))
      ensures r.Ok? ==>
        && r.value.start == Pos(LogOf([], logs, capacity), |closed|, at)
        && r.value.end == Pos(LogOf([], logs, capacity), |closed|, |open.Bytes()|)
        && LastIs(logs[|closed|], record, at) && issued == old(issued) + [Issue(|closed|, |logs[|closed|]| - 1, at)]
      ensures r.Ok? && record != [] ==> |open.Bytes()| == |Stream(logs[|closed|])|
    {
      hide Stream, LastIs, Flatten, IssuesOk, AllHold, Streams, Solid, Fine, Lands, Begins, HasFilled, Remaining, Encode, TakesAfter, Pos, LogOf, WithRecord;
      ghost var fits := open.SufficientCapacity(|record|);
      if Packed() { PackedFits(|record|); }
      r, at := AppendSomewhere(record);
      LogsAppended(old(logs), record, fits, r.Ok?, capacity);
    }

    /** Appends several records. One that fits no segment is passed over: nothing tells the caller. */
    method AppendAll(records: seq<seq<byte>>)
      requires Valid()
      modifies this, open, open.page
      ensures Valid() && (open == old(open) || (fresh(open) && fresh(open.page)))
      ensures old(Packed()) && old(logs) == [[]] ==> Packed() && logs == Segments(records, capacity)
      ensures Flatten(logs) == Flatten(old(logs)) + Fitting(records, Remaining(0, 0, capacity))
      ensures Solid(logs) ==> Solid(old(logs))
      ensures (forall n :: 0 <= n < |records| ==> |records[n]| <= Remaining(0, 0, capacity)) ==> (Solid(logs) <==> Solid(old(logs)))
    {
      ghost var all, most := Flatten(logs), Remaining(0, 0, capacity);
      NoBehind(all);
      for n := 0 to |records|
        invariant Valid() && (open == old(open) || (fresh(open) && fresh(open.page)))
        invariant Flatten(logs) == all + Fitting(records[..n], most)
        invariant old(Packed()) && old(logs) == [[]] ==> Packed() && logs == Segments(records[..n], capacity)
        invariant Solid(logs) ==> Solid(old(logs))
        invariant (forall m :: 0 <= m < n ==> |records[m]| <= most) ==> (Solid(logs) <==> Solid(old(logs)))
      {
        FittingNext(all, records, n, most);
        SegmentsNext(records, n, capacity);
        var r, at := Append(records[n]);
      }
      assert records[..|records|] == records;
    }

    /** Writes what is not yet in the file. */
    method FlushHere()
      requires Valid()
      modifies open, open.page
      ensures open.Valid() && open.InBounds() && Streams(open.Bytes(), logs[|closed|]) && open.file == open.Bytes()
    {
      hide Encode, Stream, Place, Streams, Fill;
      ghost var fill := if open.pageAllocated + HEADER >= PAGE then PAGE - open.pageAllocated else 0;
      InPage(open.pageStart, open.pageAllocated);
      StreamsFill(open.Bytes(), logs[|closed|], fill);
      open.FlushPage(false);
    }

    /** Flushes, unless the log is flushed up to `lsn` already. */
    method Flush(lsn: Option<nat>)
      requires Valid()
      modifies open, open.page
      ensures Valid()
      ensures lsn.None? ==> open.file == open.Bytes()
      ensures lsn.Some? ==> open.file == open.Bytes() || open.SegmentStart() + |open.file| >= lsn.value
    {
      var flushed := open.FlushedLsn();
      if lsn.Some? && flushed >= lsn.value { return; }
      FlushHere();
    }

    /** Once all is flushed, the files hold the records of the segments. */
    lemma FilesHold()
      requires Valid() && open.file == open.Bytes()
      ensures AllHold(Files(), logs)
    {
      hide Stream, Streams, IssuesOk, Holds, AllHold;
      AddNone(open.Bytes());
      StreamsHold(open.Bytes(), logs[|closed|], 0);
      AllHoldSnoc(closed, logs[..|closed|], open.file, logs[|closed|]);
      assert logs[..|closed|] + [logs[|closed|]] == logs;
    }

    /** After a flush the log can be opened and gives back from position 0 exactly the records appended that
        are not empty, each with the position behind it, if and only if it is fine and has no hole. */
    lemma ReadsBackIff()
      requires Valid() && open.file == open.Bytes()
      ensures
        var g := LogOf(Files(), logs, capacity);
        && DataOf(Items(g, 0, 0)) == Filled(Flatten(logs))
        && (Opens(Files(), capacity) && Gives(g, 0, Items(g, 0, 0)) <==> Fine(logs, capacity) && NoHole(logs, 0))
    {
      FilesHold();
      LogReadsBackIff(Files(), logs, capacity);
      ItemsAreRecords(LogOf(Files(), logs, capacity));
    }

    /** After a flush every position that an append has returned leads to its record, if and only if it is not
        the last byte of a page. */
    lemma ReadsIssuedIff(j: nat)
      requires Valid() && open.file == open.Bytes() && Opens(Files(), capacity) && j < |issued|
      ensures IssueOk(logs, issued[j])
      ensures RecordOf(logs, issued[j]) != [] ==>
        (Finds(Files(), logs, capacity, issued[j]) <==> Offset(issued[j].at) != PAGE - 1)
    {
      hide AllHold, Streams, IssueOk, Opens, Finds;
      FilesHold();
      assert IssueOk(logs, issued[j]);
      if RecordOf(logs, issued[j]) != [] { FindsIff(Files(), logs, capacity, issued[j]); }
    }
  }

  /** The stream ends exactly behind a record that is not empty: what padding there was is now inside. */
  lemma EndsExactly(bytes: seq<byte>, rs: seq<seq<byte>>, record: seq<byte>)
    requires Streams(bytes, rs) && record != []
    ensures bytes + Encode(|bytes|, record) == Stream(rs + [record])
  {
    StreamSnoc(rs, record);
    AppendedTo(bytes, Stream(rs), record);
  }

  /** An empty record takes no bytes. */
  lemma EmptyAdds(length: nat, rs: seq<seq<byte>>)
    ensures Encode(length, []) == [] && |Stream(rs + [[]])| == |Stream(rs)|
  {
    StreamSnoc(rs, []);
  }

  /** What is to be read from a log: it depends on how the records are spread over segments. */
  function WholeLog(logs: seq<seq<seq<byte>>>, capacity: nat): seq<Found>
    requires logs != []
  {
    Items(LogOf([], logs, capacity), 0, 0)
  }

  /** The positions do not depend on the files. */
  lemma {:induction false} SameItems(files: seq<seq<byte>>, logs: seq<seq<seq<byte>>>, capacity: nat, k: nat, i: nat)
    requires k < |logs| && i <= |logs[k]|
    ensures Items(LogOf(files, logs, capacity), k, i) == Items(LogOf([], logs, capacity), k, i)
    decreases |logs| - k, |logs[k]| - i
  {
    hide At;
    var g, g' := LogOf(files, logs, capacity), LogOf([], logs, capacity);
    if i < |logs[k]| {
      SameItems(files, logs, capacity, k, i + 1);
      assert Pos(g, k, At(logs[k], i + 1)) == Pos(g', k, At(logs[k], i + 1));
    } else if k + 1 < |logs| {
      SameItems(files, logs, capacity, k + 1, 0);
    }
  }

  /** Logs records, flushes, and reads the log. All records that fit a segment come back, in order and each with
      the position behind it, exactly when the segments that they make are fine and have no hole. */
  method LogAndRead(records: seq<seq<byte>>, capacity: nat) returns (r: Result<seq<Found>>)
    requires capacity > 0 && capacity % PAGE == 0
    ensures
      var logs := Segments(records, capacity);
      && (r == Ok(WholeLog(logs, capacity)) <==> Fine(logs, capacity) && NoHole(logs, 0))
      && DataOf(WholeLog(logs, capacity)) == Filled(Fitting(records, Remaining(0, 0, capacity)))
      && ((forall n :: 0 <= n < |records| ==> |records[n]| <= Remaining(0, 0, capacity)) ==> NoHole(logs, 0))
  {
    hide Fine, NoHole, Solid, Remaining, Segments, Opens, Fitting;
    var wal := new Wal(capacity);
    wal.AppendAll(records);
    wal.Flush(None);
    ghost var logs := wal.logs;
    wal.ReadsBackIff();
    if Solid(logs) { SolidNoHole(logs); }
    SolidStart();
    NoFront(Fitting(records, Remaining(0, 0, capacity)));
    assert Flatten([[]]) == [] by { FlattenSnoc([], []); }
    SameItems(wal.Files(), logs, capacity, 0, 0);
    r := ReadLogWhole(wal.Files(), capacity);
    SameLog(wal.Files(), logs, capacity, WholeLog(logs, capacity));
  }

  lemma SolidStart()
    ensures Solid([[]])
  {
  }

  /** What is read depends on the files. */
  lemma {:induction false} SameLog(files: seq<seq<byte>>, logs: seq<seq<seq<byte>>>, capacity: nat, items: seq<Found>)
    requires capacity > 0
    ensures Gives(Log(files, [], capacity, 0), 0, items) <==> Gives(LogOf(files, logs, capacity), 0, items)
  {
    SameLogFrom(files, logs, capacity, 0, items);
  }

  lemma {:induction false} SameLogFrom(files: seq<seq<byte>>, logs: seq<seq<seq<byte>>>, capacity: nat, pos: nat, items: seq<Found>)
    requires capacity > 0
    ensures Gives(Log(files, [], capacity, 0), pos, items) <==> Gives(LogOf(files, logs, capacity), pos, items)
    decreases |items|
  {
    if items != [] { SameLogFrom(files, logs, capacity, items[0].pos, items[1..]); }
  }
}

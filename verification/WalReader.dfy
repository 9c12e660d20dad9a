/** Reading a log of several segments. */
module WalReader {
  import opened Options
  import opened Bytes
  import opened WalFormat
  import opened SegmentView

  /** The file that a position is in, by its number in the list; the list starts at segment `startSegno`. */
  function PosToSegment(files: seq<seq<byte>>, startSegno: nat, capacity: nat, pos: nat): Option<nat>
    requires capacity > 0
  {
    var segno := pos / capacity + 1;
    if segno < startSegno then None
    else if segno - startSegno >= |files| then None
    else Some(segno - startSegno)
  }

  /** The record at a log position, and the position after it. A segment that has no more leads on to
      the start of the next one. */
  function ReadAt(files: seq<seq<byte>>, startSegno: nat, capacity: nat, pos: nat): Outcome
    requires capacity > 0
    decreases if pos % capacity == 0 then 0 else 1
  {
    var segment := PosToSegment(files, startSegno, capacity, pos);
    if segment.None? then Ok(None)
    else
      var offset := pos % capacity;
      var r := Read(files[segment.value], offset);
      if r.Err? then r
      else if r.value.Some? then Ok(Some(Found(r.value.value.data, pos + r.value.value.pos)))
      else if offset == 0 then Ok(None)
      else
        NextSegment(capacity, pos);
        ReadAt(files, startSegno, capacity, pos + (capacity - offset))
  }

  lemma NextSegment(capacity: nat, pos: nat)
    requires capacity > 0
    ensures (pos + (capacity - pos % capacity)) % capacity == 0
  {
    var k := pos / capacity;
    assert pos == k * capacity + pos % capacity;
    assert pos + (capacity - pos % capacity) == (k + 1) * capacity;
    Split(k + 1, 0, capacity);
  }

  lemma Multiple(n: nat, c: nat)
    requires n >= 1
    ensures n * c >= c
  {
    assert n * c == c + (n - 1) * c;
  }

  lemma Spread(m: nat, n: nat, c: nat)
    requires m < n
    ensures n * c >= m * c + c
  {
    Multiple(n - m, c);
    assert n * c == m * c + (n - m) * c;
  }

  /** Segment and offset of a position. */
  lemma Split(k: nat, offset: nat, capacity: nat)
    requires offset < capacity
    ensures (k * capacity + offset) / capacity == k && (k * capacity + offset) % capacity == offset
  {
    var pos := k * capacity + offset;
    var q, r := pos / capacity, pos % capacity;
    assert pos == q * capacity + r;
    if q > k { Spread(k, q, capacity); } else if q < k { Spread(q, k, capacity); }
  }

  class WalReaderIterator {
    const files: seq<seq<byte>>
    const startSegno: nat
    const capacity: nat
    var nextPos: nat

    constructor (files: seq<seq<byte>>, capacity: nat, startPos: nat)
      requires capacity > 0
      ensures this.files == files && this.capacity == capacity && startSegno == startPos / capacity + 1 && nextPos == startPos
    {
      this.files := files;
      this.capacity := capacity;
      startSegno := startPos / capacity + 1;
      nextPos := startPos;
    }

    /** The next record; its end is where the one after is looked for. */
    method Next() returns (r: Outcome)
      requires capacity > 0
      modifies this
      ensures r == ReadAt(files, startSegno, capacity, old(nextPos))
      ensures nextPos == if r.Ok? && r.value.Some? then r.value.value.pos else old(nextPos)
    {
      r := Find(nextPos);
      if r.Ok? && r.value.Some? { nextPos := r.value.value.pos; }
    }

    method Find(pos: nat) returns (r: Outcome)
      requires capacity > 0
      ensures r == ReadAt(files, startSegno, capacity, pos)
      decreases if pos % capacity == 0 then 0 else 1
    {
      var segment := PosToSegment(files, startSegno, capacity, pos);
      if segment.None? { return Ok(None); }
      var offset := pos % capacity;
      r := ReadRecord(files[segment.value], offset);
      if r.Err? { return; }
      if r.value.Some? { return Ok(Some(Found(r.value.value.data, pos + r.value.value.pos))); }
      if offset == 0 { return; }
      NextSegment(capacity, pos);
      r := Find(pos + (capacity - offset));
    }
  }

  // ----- what a log holds -----

  /** Where the i-th record of a segment begins, before padding. */
  function At(records: seq<seq<byte>>, i: nat): nat
    requires i <= |records|
  {
    |Stream(records[..i])|
  }

  /** The file of a segment: its records, and at most the rest of the page. */
  ghost predicate Holds(file: seq<byte>, records: seq<seq<byte>>) {
    && |Stream(records)| <= |file| && file[..|Stream(records)|] == Stream(records)
    && OnlyPadding(file, |Stream(records)|)
  }

  /** No record but an empty one begins at the last byte of a page. */
  ghost predicate Readable(records: seq<seq<byte>>) {
    forall i :: 0 <= i < |records| && records[i] != [] ==> Offset(At(records, i)) != PAGE - 1
  }

  lemma AtNext(records: seq<seq<byte>>, i: nat)
    requires i < |records|
    ensures At(records, i + 1) == At(records, i) + |Encode(At(records, i), records[i])|
    ensures Stream(records[..i + 1]) == Stream(records[..i]) + Encode(At(records, i), records[i])
  {
    assert records[..i + 1] == records[..i] + [records[i]];
    StreamSnoc(records[..i], records[i]);
  }

  lemma PrefixOf(s: seq<byte>, t: seq<byte>, u: seq<byte>)
    requires |t + u| <= |s| && s[..|t + u|] == t + u
    ensures s[..|t|] == t
  {
    assert s[..|t|] == s[..|t + u|][..|t|];
  }

  /** Earlier parts of the stream are prefixes. */
  lemma {:induction false} StreamPrefix(records: seq<seq<byte>>, i: nat)
    requires i <= |records|
    ensures At(records, i) <= |Stream(records)| && Stream(records)[..At(records, i)] == Stream(records[..i])
    decreases |records| - i
  {
    if i == |records| {
      assert records[..i] == records;
    } else {
      StreamPrefix(records, i + 1);
      AtNext(records, i);
      PrefixOf(Stream(records), Stream(records[..i]), Encode(At(records, i), records[i]));
    }
  }

  lemma Shorten(file: seq<byte>, s: seq<byte>, q: nat)
    requires |s| <= |file| && file[..|s|] == s && q <= |s|
    ensures file[..q] == s[..q]
  {
    assert file[..q] == file[..|s|][..q];
  }

  lemma SliceOf(file: seq<byte>, t: seq<byte>, u: seq<byte>)
    requires |t + u| <= |file| && file[..|t + u|] == t + u
    ensures Has(file, |t|, u)
  {
    assert file[|t|..|t| + |u|] == file[..|t + u|][|t|..] == u;
    HasIs(file, |t|, u);
  }

  lemma RecordThere(file: seq<byte>, records: seq<seq<byte>>, i: nat)
    requires Holds(file, records) && i < |records|
    ensures At(records, i + 1) <= |file| && Has(file, At(records, i), Encode(At(records, i), records[i]))
  {
    StreamPrefix(records, i + 1);
    AtNext(records, i);
    Shorten(file, Stream(records), At(records, i + 1));
    SliceOf(file, Stream(records[..i]), Encode(At(records, i), records[i]));
  }

  lemma AtPositive(records: seq<seq<byte>>, i: nat)
    requires i < |records| && records[i] != []
    ensures At(records, i) < At(records, i + 1)
  {
    AtNext(records, i);
    EncodeEnd(At(records, i), records[i]);
    EncodeAt(At(records, i), Place(At(records, i)), records[i]);
    BodySpan(Place(At(records, i)), records[i], true);
  }

  // ----- a whole log -----

  /** Files and records of the segments after the first `skipped`. */
  datatype Log = Log(files: seq<seq<byte>>, records: seq<seq<seq<byte>>>, capacity: nat, skipped: nat)

  ghost predicate HasFilled(records: seq<seq<byte>>) {
    exists i :: 0 <= i < |records| && records[i] != []
  }

  /** Each file has the records of its segment, and none is longer than the capacity. */
  ghost predicate Kept(g: Log) {
    && g.capacity > 0 && |g.files| == |g.records|
    && forall k :: 0 <= k < |g.files| ==> Holds(g.files[k], g.records[k]) && |g.files[k]| <= g.capacity
  }

  function Pos(g: Log, k: nat, offset: nat): nat {
    (g.skipped + k) * g.capacity + offset
  }

  function ReadLog(g: Log, pos: nat): Outcome
    requires g.capacity > 0
  {
    ReadAt(g.files, g.skipped + 1, g.capacity, pos)
  }

  lemma InSegment(g: Log, k: nat, offset: nat)
    requires g.capacity > 0 && offset < g.capacity
    ensures PosToSegment(g.files, g.skipped + 1, g.capacity, Pos(g, k, offset)) == if k < |g.files| then Some(k) else None
    ensures Pos(g, k, offset) % g.capacity == offset
  {
    Split(g.skipped + k, offset, g.capacity);
  }

  lemma PosNext(g: Log, k: nat)
    ensures Pos(g, k, g.capacity) == Pos(g, k + 1, 0)
  {
    assert (g.skipped + k) * g.capacity + g.capacity == (g.skipped + (k + 1)) * g.capacity;
  }

  lemma EncodePositive(f: seq<byte>, offset: nat, record: seq<byte>)
    requires record != [] && Has(f, offset, Encode(offset, record))
    ensures offset + |Encode(offset, record)| <= |f| && |Encode(offset, record)| > 0
  {
    EncodeAt(offset, Place(offset), record);
    BodySpan(Place(offset), record, true);
    HasSlice(f, offset, Encode(offset, record));
  }

  lemma FoundIn(g: Log, k: nat, offset: nat, record: seq<byte>, n: nat)
    requires offset < g.capacity && k < |g.files| && Read(g.files[k], offset) == Ok(Some(Found(record, n)))
    ensures ReadLog(g, Pos(g, k, offset)) == Ok(Some(Found(record, Pos(g, k, offset + n))))
  {
    InSegment(g, k, offset);
  }

  /** Behind its last record a segment leads on to the next. */
  lemma LeadsOn(g: Log, k: nat, offset: nat)
    requires g.capacity > 0 && k < |g.files| && 0 < offset < g.capacity && OnlyPadding(g.files[k], offset)
    ensures ReadLog(g, Pos(g, k, offset)) == ReadLog(g, Pos(g, k + 1, 0))
  {
    ReadsEnd(g.files[k], offset);
    InSegment(g, k, offset);
    PosNext(g, k);
    assert Pos(g, k, offset) + (g.capacity - offset) == Pos(g, k, g.capacity);
  }

  lemma NoSegment(g: Log, k: nat)
    requires g.capacity > 0 && k >= |g.files|
    ensures ReadLog(g, Pos(g, k, 0)) == Ok(None)
  {
    InSegment(g, k, 0);
  }

  /** Records that are not empty. */
  function Filled(records: seq<seq<byte>>): seq<seq<byte>> {
    if records == [] then []
    else if records[0] == [] then Filled(records[1..]) else [records[0]] + Filled(records[1..])
  }

  /** What is still to be read from record `i` of segment `k`. */
  function Rest(g: Log, k: nat, i: nat): seq<seq<byte>>
    requires k < |g.records| && i <= |g.records[k]|
    decreases |g.records| - k
  {
    Filled(g.records[k][i..]) + if k + 1 < |g.records| then Rest(g, k + 1, 0) else []
  }

  lemma RestStep(g: Log, k: nat, i: nat)
    requires k < |g.records| && i < |g.records[k]|
    ensures Rest(g, k, i) == (if g.records[k][i] == [] then [] else [g.records[k][i]]) + Rest(g, k, i + 1)
  {
    var rs := g.records[k];
    assert rs[i..] == [rs[i]] + rs[i + 1..];
    assert Filled(rs[i..]) == (if rs[i] == [] then [] else [rs[i]]) + Filled(rs[i + 1..]);
  }

  lemma RestEnd(g: Log, k: nat)
    requires k < |g.records|
    ensures Rest(g, k, |g.records[k]|) == if k + 1 < |g.records| then Rest(g, k + 1, 0) else []
  {
    assert g.records[k][|g.records[k]|..] == [];
  }

  lemma ReadPositive(f: seq<byte>, offset: nat)
    ensures Read(f, offset).Ok? && Read(f, offset).value.Some? ==> Read(f, offset).value.value.pos > 0
  {
    if |f| > offset + HEADER { ReadAdvances(f, offset, [], false); }
  }

  lemma NextAdvances(g: Log, k: nat)
    requires g.capacity > 0
    ensures
      var r := ReadLog(g, Pos(g, k, 0));
      r.Ok? && r.value.Some? ==> r.value.value.pos > Pos(g, k, 0)
  {
    InSegment(g, k, 0);
    if k < |g.files| { ReadPositive(g.files[k], 0); }
  }

  /** When the file does not give the record at an offset, neither does the log. */
  lemma NotFoundIn(g: Log, k: nat, offset: nat, record: seq<byte>, n: nat)
    requires 0 < offset < g.capacity && k < |g.files| && Read(g.files[k], offset) != Ok(Some(Found(record, n)))
    requires offset + n <= g.capacity
    ensures ReadLog(g, Pos(g, k, offset)) != Ok(Some(Found(record, Pos(g, k, offset + n))))
  {
    InSegment(g, k, offset);
    var r := Read(g.files[k], offset);
    if r.Ok? && r.value.None? {
      PosNext(g, k);
      assert Pos(g, k, offset) + (g.capacity - offset) == Pos(g, k + 1, 0);
      NextAdvances(g, k + 1);
    }
  }

  lemma OffsetPositive(offset: nat)
    requires Offset(offset) == PAGE - 1
    ensures offset > 0
  {
  }

  /** Where a record can be said to begin: behind the one before, or behind the padding after that. */
  ghost predicate Begins(rs: seq<seq<byte>>, i: nat, at: nat)
    requires i < |rs|
  {
    at == At(rs, i) || at == Place(At(rs, i))
  }

  lemma ThereToo(file: seq<byte>, rs: seq<seq<byte>>, i: nat, at: nat)
    requires Holds(file, rs) && i < |rs| && rs[i] != [] && Begins(rs, i, at)
    ensures Has(file, at, Encode(at, rs[i])) && at + |Encode(at, rs[i])| == At(rs, i + 1) <= |file| && |Encode(at, rs[i])| > 0
  {
    RecordThere(file, rs, i);
    AtNext(rs, i);
    Behind(file, At(rs, i), at, rs[i]);
    EncodePositive(file, at, rs[i]);
  }

  lemma Behind(file: seq<byte>, p: nat, at: nat, record: seq<byte>)
    requires Has(file, p, Encode(p, record)) && record != [] && (at == p || at == Place(p))
    ensures Has(file, at, Encode(at, record)) && at + |Encode(at, record)| == p + |Encode(p, record)|
  {
    PlaceHasRoom(p);
    PaddedEncode(p, at, record);
    HasParts(file, p, Zeros(at - p), Encode(at, record));
  }

  /** In a log, a record is read where it begins exactly when this is not the last byte of a page. */
  lemma RecordReadIff(g: Log, k: nat, rs: seq<seq<byte>>, i: nat, at: nat)
    requires g.capacity > 0 && k < |g.files| && |g.files[k]| <= g.capacity && Holds(g.files[k], rs)
    requires i < |rs| && rs[i] != [] && Begins(rs, i, at)
    ensures ReadLog(g, Pos(g, k, at)) == Ok(Some(Found(rs[i], Pos(g, k, At(rs, i + 1))))) <==> Offset(at) != PAGE - 1
  {
    var next, n := At(rs, i + 1), |Encode(at, rs[i])|;
    ThereToo(g.files[k], rs, i, at);
    assert Pos(g, k, at + n) == Pos(g, k, next);
    if Offset(at) != PAGE - 1 {
      ReadsPlaced(g.files[k], at, rs[i]);
      FoundIn(g, k, at, rs[i], n);
    } else {
      OffsetPositive(at);
      MissesPage(g.files[k], at, rs[i]);
      NotFoundIn(g, k, at, rs[i], n);
    }
  }

  /** An offset behind the records: the capacity, an end with padding, or the start of an empty segment. */
  lemma BehindRecords(g: Log, k: nat, offset: nat)
    requires g.capacity > 0 && k < |g.files| && |g.files[k]| <= g.capacity && OnlyPadding(g.files[k], offset)
    ensures offset > 0 ==> ReadLog(g, Pos(g, k, offset)) == ReadLog(g, Pos(g, k + 1, 0))
    ensures offset == 0 ==> ReadLog(g, Pos(g, k, offset)) == Ok(None)
  {
    if offset == g.capacity {
      PosNext(g, k);
    } else if offset > 0 {
      LeadsOn(g, k, offset);
    } else {
      ReadsEnd(g.files[k], 0);
      InSegment(g, k, 0);
    }
  }

  lemma EndPositive(rs: seq<seq<byte>>, i: nat)
    requires i < |rs| && rs[i] != []
    ensures At(rs, |rs|) > 0
  {
    AtPositive(rs, i);
    StreamPrefix(rs, i + 1);
    assert rs[..|rs|] == rs;
  }

  lemma NothingBefore(records: seq<seq<byte>>)
    ensures At(records, 0) == 0
  {
    assert records[..0] == [];
  }

  /** A stream with bytes has a record with bytes. */
  lemma {:induction false} BytesMeanRecords(records: seq<seq<byte>>)
    requires Stream(records) != []
    ensures HasFilled(records)
  {
    var n := |records| - 1;
    if records[n] == [] {
      assert Stream(records[..n]) + [] == Stream(records[..n]);
      BytesMeanRecords(records[..n]);
      var i :| 0 <= i < |records[..n]| && records[..n][i] != [];
      assert records[i] != [];
    }
  }

  /** A segment ends behind its start exactly when it has a record with bytes. */
  lemma EndIs(rs: seq<seq<byte>>)
    ensures At(rs, |rs|) > 0 <==> HasFilled(rs)
  {
    assert rs[..|rs|] == rs;
    if HasFilled(rs) {
      var i :| 0 <= i < |rs| && rs[i] != [];
      EndPositive(rs, i);
    }
    if Stream(rs) != [] { BytesMeanRecords(rs); }
  }

  // ----- what the iterator gives -----

  /** From a position on the iterator gives these records, each with the position behind it, and then ends. */
  ghost predicate Gives(g: Log, pos: nat, items: seq<Found>)
    requires g.capacity > 0
    decreases |items|
  {
    if items == [] then ReadLog(g, pos) == Ok(None)
    else ReadLog(g, pos) == Ok(Some(items[0])) && Gives(g, items[0].pos, items[1..])
  }

  /** It gives one sequence, if any. */
  lemma {:induction false} GivesOne(g: Log, pos: nat, items: seq<Found>, items': seq<Found>)
    requires g.capacity > 0 && Gives(g, pos, items) && Gives(g, pos, items')
    ensures items == items'
    decreases |items|
  {
    if items != [] && items' != [] {
      GivesOne(g, items[0].pos, items[1..], items'[1..]);
      assert items == [items[0]] + items[1..] && items' == [items'[0]] + items'[1..];
    }
  }

  /** The records from record `i` of segment `k` on that are not empty, each with the position behind it. */
  function Items(g: Log, k: nat, i: nat): seq<Found>
    requires k < |g.records| && i <= |g.records[k]|
    decreases |g.records| - k, |g.records[k]| - i
  {
    var rs := g.records[k];
    if i < |rs| then
      (if rs[i] == [] then [] else [Found(rs[i], Pos(g, k, At(rs, i + 1)))]) + Items(g, k, i + 1)
    else if k + 1 < |g.records| then Items(g, k + 1, 0)
    else []
  }

  function DataOf(items: seq<Found>): seq<seq<byte>> {
    if items == [] then [] else [items[0].data] + DataOf(items[1..])
  }

  lemma {:induction false} ItemsData(g: Log, k: nat, i: nat)
    requires k < |g.records| && i <= |g.records[k]|
    ensures DataOf(Items(g, k, i)) == Rest(g, k, i)
    decreases |g.records| - k, |g.records[k]| - i
  {
    if i < |g.records[k]| {
      RestStep(g, k, i);
      ItemsData(g, k, i + 1);
      if g.records[k][i] == [] {
        assert [] + Items(g, k, i + 1) == Items(g, k, i + 1) && [] + Rest(g, k, i + 1) == Rest(g, k, i + 1);
      } else {
        assert Items(g, k, i)[1..] == Items(g, k, i + 1);
      }
    } else {
      RestEnd(g, k);
      if k + 1 < |g.records| { ItemsData(g, k + 1, 0); }
    }
  }

  /** From record `i` of segment `k` on no record begins at the last byte of a page, and no segment without
      records comes before one with some. */
  ghost predicate Clear(g: Log, k: nat, i: nat)
    requires k < |g.records| && i <= |g.records[k]|
    decreases |g.records| - k, |g.records[k]| - i
  {
    var rs := g.records[k];
    if i < |rs| then (rs[i] != [] ==> Offset(At(rs, i)) != PAGE - 1) && Clear(g, k, i + 1)
    else if k + 1 == |g.records| then true
    else if HasFilled(rs) then Clear(g, k + 1, 0)
    else Items(g, k + 1, 0) == []
  }

  lemma GivesAlike(g: Log, pos: nat, pos': nat, items: seq<Found>)
    requires g.capacity > 0 && ReadLog(g, pos) == ReadLog(g, pos')
    ensures Gives(g, pos, items) <==> Gives(g, pos', items)
  {
  }

  lemma GivesFirst(g: Log, pos: nat, item: Found, rest: seq<Found>)
    requires g.capacity > 0
    ensures Gives(g, pos, [item] + rest) <==> ReadLog(g, pos) == Ok(Some(item)) && Gives(g, item.pos, rest)
  {
    assert ([item] + rest)[1..] == rest;
  }

  lemma GivesEnd(g: Log, pos: nat, items: seq<Found>)
    requires g.capacity > 0 && ReadLog(g, pos) == Ok(None)
    ensures Gives(g, pos, items) <==> items == []
  {
  }

  lemma SegmentEnds(g: Log, k: nat)
    requires Kept(g) && k < |g.records|
    ensures
      var end := Pos(g, k, At(g.records[k], |g.records[k]|));
      if HasFilled(g.records[k]) then ReadLog(g, end) == ReadLog(g, Pos(g, k + 1, 0)) else ReadLog(g, end) == Ok(None)
  {
    var rs := g.records[k];
    assert rs[..|rs|] == rs && Holds(g.files[k], rs);
    EndIs(rs);
    BehindRecords(g, k, At(rs, |rs|));
  }

  /** Reading from any record on gives that record and all that follow, across pages and segments, exactly
      when none of them begins at the last byte of a page and no segment before the last of them is empty. */
  lemma {:induction false} GivesIff(g: Log, k: nat, i: nat)
    requires Kept(g) && k < |g.records| && i <= |g.records[k]|
    ensures Gives(g, Pos(g, k, At(g.records[k], i)), Items(g, k, i)) <==> Clear(g, k, i)
    decreases |g.records| - k, |g.records[k]| - i
  {
    var rs := g.records[k];
    var pos := Pos(g, k, At(rs, i));
    if i < |rs| {
      GivesIff(g, k, i + 1);
      AtNext(rs, i);
      if rs[i] == [] {
        assert [] + Items(g, k, i + 1) == Items(g, k, i + 1);
      } else {
        assert Holds(g.files[k], rs);
        RecordReadIff(g, k, rs, i, At(rs, i));
        GivesFirst(g, pos, Found(rs[i], Pos(g, k, At(rs, i + 1))), Items(g, k, i + 1));
      }
    } else {
      SegmentEnds(g, k);
      if HasFilled(rs) {
        GivesAlike(g, pos, Pos(g, k + 1, 0), Items(g, k, i));
        if k + 1 < |g.records| {
          GivesIff(g, k + 1, 0);
          NothingBefore(g.records[k + 1]);
        } else {
          NoSegment(g, k + 1);
        }
      } else {
        GivesEnd(g, pos, Items(g, k, i));
      }
    }
  }

  // ----- the condition, over all segments at once -----

  ghost predicate ReadableFrom(rs: seq<seq<byte>>, i: nat) {
    forall j :: i <= j < |rs| && rs[j] != [] ==> Offset(At(rs, j)) != PAGE - 1
  }

  /** No segment without records comes before one with some. */
  ghost predicate NoHole(records: seq<seq<seq<byte>>>, k: nat) {
    forall a, b :: k <= a < b < |records| && HasFilled(records[b]) ==> HasFilled(records[a])
  }

  ghost predicate NoneFrom(records: seq<seq<seq<byte>>>, k: nat) {
    forall b :: k <= b < |records| ==> !HasFilled(records[b])
  }

  ghost predicate ReadableAfter(records: seq<seq<seq<byte>>>, k: nat) {
    forall b :: k < b < |records| ==> Readable(records[b])
  }

  predicate EmptyFrom(rs: seq<seq<byte>>, i: nat) {
    forall j :: i <= j < |rs| ==> rs[j] == []
  }

  lemma {:induction false} ItemsNone(g: Log, k: nat, i: nat)
    requires k < |g.records| && i <= |g.records[k]|
    ensures Items(g, k, i) == [] <==>
      EmptyFrom(g.records[k], i) && NoneFrom(g.records, k + 1)
    decreases |g.records| - k, |g.records[k]| - i
  {
    if i < |g.records[k]| {
      ItemsNone(g, k, i + 1);
    } else if k + 1 < |g.records| {
      ItemsNone(g, k + 1, 0);
      assert HasFilled(g.records[k + 1]) <==> !EmptyFrom(g.records[k + 1], 0);
    }
  }

  lemma HoleFrom(records: seq<seq<seq<byte>>>, k: nat)
    requires k + 1 < |records|
    ensures NoHole(records, k) <==> NoHole(records, k + 1) && (HasFilled(records[k]) || NoneFrom(records, k + 1))
    ensures NoneFrom(records, k + 1) ==> ReadableAfter(records, k) && NoHole(records, k + 1)
    ensures ReadableAfter(records, k) <==> ReadableAfter(records, k + 1) && ReadableFrom(records[k + 1], 0)
  {
  }

  lemma {:induction false} ClearIff(g: Log, k: nat, i: nat)
    requires k < |g.records| && i <= |g.records[k]|
    ensures Clear(g, k, i) <==> ReadableFrom(g.records[k], i) && ReadableAfter(g.records, k) && NoHole(g.records, k)
    decreases |g.records| - k, |g.records[k]| - i
  {
    if i < |g.records[k]| {
      ClearIff(g, k, i + 1);
    } else if k + 1 < |g.records| {
      ClearIff(g, k + 1, 0);
      ItemsNone(g, k + 1, 0);
      assert HasFilled(g.records[k + 1]) <==> !EmptyFrom(g.records[k + 1], 0);
      HoleFrom(g.records, k);
    }
  }

  // ----- reading a whole log -----

  /** A reader is refused when a file is longer than the capacity. */
  predicate Opens(files: seq<seq<byte>>, capacity: nat) {
    forall k :: 0 <= k < |files| ==> |files[k]| <= capacity
  }

  /** A reader of the whole log. */
  method OpenReader(files: seq<seq<byte>>, capacity: nat) returns (r: Result<WalReaderIterator>)
    requires capacity > 0
    ensures r.Ok? <==> Opens(files, capacity)
    ensures r.Ok? ==> fresh(r.value) && r.value.files == files && r.value.capacity == capacity && r.value.startSegno == 1 && r.value.nextPos == 0
  {
    for k := 0 to |files|
      invariant Opens(files[..k], capacity)
    {
      if |files[k]| > capacity { return Err(InvalidState); }
      assert files[..k + 1] == files[..k] + [files[k]];
    }
    assert files[..|files|] == files;
    var iter := new WalReaderIterator(files, capacity, 0);
    return Ok(iter);
  }

  lemma Below(n: nat, pos: nat, capacity: nat)
    requires capacity > 0 && pos / capacity < n
    ensures pos < n * capacity
  {
    var q := pos / capacity;
    assert pos == q * capacity + pos % capacity;
    Spread(q, n, capacity);
  }

  /** The iterator only moves forward, and only within the files. */
  lemma ReadMoves(g: Log, pos: nat)
    requires g.capacity > 0 && g.skipped == 0
    ensures
      var r := ReadLog(g, pos);
      r.Ok? && r.value.Some? ==> pos < |g.files| * g.capacity && r.value.value.pos > pos
    decreases if pos % g.capacity == 0 then 0 else 1
  {
    var segment := PosToSegment(g.files, 1, g.capacity, pos);
    if segment.Some? {
      Below(|g.files|, pos, g.capacity);
      var offset := pos % g.capacity;
      ReadPositive(g.files[segment.value], offset);
      if offset != 0 {
        NextSegment(g.capacity, pos);
        ReadMoves(g, pos + (g.capacity - offset));
      }
    }
  }

  ghost predicate GivesPart(g: Log, pos: nat, items: seq<Found>, next: nat)
    requires g.capacity > 0
    decreases |items|
  {
    if items == [] then next == pos
    else ReadLog(g, pos) == Ok(Some(items[0])) && GivesPart(g, items[0].pos, items[1..], next)
  }

  lemma {:induction false} PartSnoc(g: Log, pos: nat, items: seq<Found>, next: nat, item: Found)
    requires g.capacity > 0 && GivesPart(g, pos, items, next) && ReadLog(g, next) == Ok(Some(item))
    ensures GivesPart(g, pos, items + [item], item.pos)
    decreases |items|
  {
    if items != [] {
      PartSnoc(g, items[0].pos, items[1..], next, item);
      assert (items + [item])[1..] == items[1..] + [item];
    } else {
      assert GivesPart(g, item.pos, [item][1..], item.pos);
    }
  }

  lemma {:induction false} PartGives(g: Log, pos: nat, items: seq<Found>, next: nat, all: seq<Found>)
    requires g.capacity > 0 && GivesPart(g, pos, items, next)
    ensures ReadLog(g, next) == Ok(None) ==> Gives(g, pos, items)
    ensures ReadLog(g, next).Err? ==> !Gives(g, pos, all)
    decreases |items|
  {
    if items != [] { PartGives(g, items[0].pos, items[1..], next, if all == [] then [] else all[1..]); }
  }

  /** Reads a log to its end, or to its first error. */
  method ReadLogWhole(files: seq<seq<byte>>, capacity: nat) returns (r: Result<seq<Found>>)
    requires capacity > 0
    ensures forall items :: r == Ok(items) <==> Opens(files, capacity) && Gives(Log(files, [], capacity, 0), 0, items)
  {
    ghost var g := Log(files, [], capacity, 0);
    var reader := OpenReader(files, capacity);
    if reader.Err? { return Err(reader.error); }
    var iter := reader.value;
    var items: seq<Found> := [];
    while true
      invariant fresh(iter) && iter.files == files && iter.capacity == capacity && iter.startSegno == 1
      invariant GivesPart(g, 0, items, iter.nextPos)
      decreases |files| * capacity - iter.nextPos
    {
      ReadMoves(g, iter.nextPos);
      ghost var pos := iter.nextPos;
      var next := iter.Next();
      if next.Err? {
        forall all: seq<Found> ensures !Gives(g, 0, all) { PartGives(g, 0, items, pos, all); }
        return Err(next.error);
      }
      if next.value == None {
        PartGives(g, 0, items, pos, []);
        forall all | Gives(g, 0, all) ensures all == items { GivesOne(g, 0, all, items); }
        return Ok(items);
      }
      PartSnoc(g, 0, items, pos, next.value.value);
      items := items + [next.value.value];
    }
  }
}

/** Writing a log segment: a page buffer, and the file it is flushed to. */
module WalSegment {
  import opened Options
  import opened Bytes
  import opened WalFormat

  /** The check that the writer makes: data that fits the rest of this page and the pages after it. Only
      the pages after it are charged for a header. */
  function Remaining(pageStart: nat, pageAllocated: nat, capacity: nat): nat
    requires pageAllocated <= PAGE && pageStart <= capacity
  {
    var pages := (capacity - pageStart) / PAGE;
    PAGE - pageAllocated + if pages > 0 then (PAGE - HEADER) * (pages - 1) else 0
  }

  /** What the check allows and what fits differ by at most a header: the first page's own. */
  lemma RemainingIs(pageStart: nat, used: nat, capacity: nat)
    requires pageStart % PAGE == 0 && capacity % PAGE == 0 && pageStart < capacity && used <= PAGE
    ensures
      var pos := pageStart + used;
      && pos <= capacity && pos - Offset(pos) <= capacity
      && Room(pos, capacity) <= Remaining(pageStart, used, capacity) <= Room(pos, capacity) + HEADER
  {
    var pos := pageStart + used;
    OffsetIs(pos);
    var pages := (capacity - pageStart) / PAGE;
    assert capacity == pageStart + pages * PAGE;
    if used == PAGE {
      assert (capacity - pos) / PAGE == pages - 1;
      OffsetIs(pos);
    }
  }

  /** A record that the check accepts leaves the segment exactly when its data needs the header that the
      check did not charge; one header less than the check allows always stays inside. */
  lemma AcceptedStaysIff(pageStart: nat, used: nat, capacity: nat, n: nat)
    requires pageStart % PAGE == 0 && capacity % PAGE == 0 && pageStart < capacity && used <= PAGE
    requires 0 < n <= Remaining(pageStart, used, capacity)
    ensures
      var pos := pageStart + used;
      && pos <= capacity
      && (End(pos, n) <= capacity <==> n <= Room(pos, capacity))
      && (n + HEADER <= Remaining(pageStart, used, capacity) ==> End(pos, n) <= capacity)
  {
    RemainingIs(pageStart, used, capacity);
    StaysInsideIff(pageStart + used, n, capacity);
  }

  /** For instance, data of a fresh segment's size less a byte is accepted and runs over. */
  lemma AcceptedRunsOver(capacity: nat)
    requires capacity == PAGE
    ensures PAGE - 1 <= Remaining(0, 0, capacity) && End(0, PAGE - 1) > capacity
  {
    AcceptedStaysIff(0, 0, capacity, PAGE - 1);
    assert Room(0, capacity) == PAGE - HEADER;
  }

  /** The check, after a stream of this length that no flush has interrupted: a full page is given up only
      when the next chunk is written. */
  function TakesAfter(length: nat, n: nat, capacity: nat): bool
    requires capacity % PAGE == 0
  {
    var used := if length == 0 then 0 else (length - 1) % PAGE + 1;
    length - used < capacity && Remaining(length - used, used, capacity) >= n
  }

  /** The page's fill is determined by the stream's length. */
  lemma FillIs(pageStart: nat, used: nat, length: nat)
    requires pageStart % PAGE == 0 && used <= PAGE && (used == 0 ==> pageStart == 0) && length == pageStart + used
    ensures used == if length == 0 then 0 else (length - 1) % PAGE + 1
  {
    if length > 0 {
      var p := pageStart / PAGE;
      assert length - 1 == p * PAGE + (used - 1);
    }
  }

  /** What is left of a record when `rest` is still to be written; only its first chunk may need padding. */
  function Todo(pos: nat, rest: seq<byte>, first: bool): seq<byte>
    requires rest != [] && !first ==> HasRoom(pos)
  {
    if rest == [] then [] else if first then Encode(pos, rest) else Body(pos, rest, false)
  }

  lemma TodoPad(pos: nat, rest: seq<byte>, first: bool)
    requires rest != [] && (first || HasRoom(pos))
    ensures pos <= Place(pos) && HasRoom(Place(pos))
    ensures Todo(pos, rest, first) == Zeros(Place(pos) - pos) + Body(Place(pos), rest, first)
  {
    PlaceHasRoom(pos);
    if !first { NoZeros(Body(pos, rest, false)); }
  }

  lemma BodyStep(at: nat, rest: seq<byte>, first: bool)
    requires rest != [] && HasRoom(at)
    ensures
      var c := ChunkSize(at, |rest|);
      && (c < |rest| ==> HasRoom(at + c + HEADER))
      && Body(at, rest, first) == Chunk(ChunkType(first, c == |rest|), rest[..c]) + Todo(at + c + HEADER, rest[c..], false)
  {
    var c := ChunkSize(at, |rest|);
    ChunkEnds(at, |rest|);
    if c == |rest| {
      assert rest[..c] == rest;
      NoMore(Chunk(ChunkType(first, true), rest));
    }
  }

  /** The stream padded to where a chunk can be placed. */
  function Padded(bytes: seq<byte>): (p: seq<byte>)
    ensures HasRoom(|p|) && |p| == Place(|bytes|)
  {
    PlaceHasRoom(|bytes|);
    bytes + Zeros(Place(|bytes|) - |bytes|)
  }

  /** The padded stream with the next chunk. */
  function AfterChunk(padded: seq<byte>, rest: seq<byte>, first: bool): seq<byte>
    requires HasRoom(|padded|)
  {
    var c := ChunkSize(|padded|, |rest|);
    padded + Chunk(ChunkType(first, c == |rest|), rest[..c])
  }

  lemma ChunkTaken(bytes: seq<byte>, rest: seq<byte>, first: bool)
    requires rest != [] && (first || HasRoom(|bytes|))
    ensures
      var c := ChunkSize(|Padded(bytes)|, |rest|);
      var after := AfterChunk(Padded(bytes), rest, first);
      && (c < |rest| ==> HasRoom(|after|))
      && bytes + Todo(|bytes|, rest, first) == after + Todo(|after|, rest[c..], false)
  {
    var p := Padded(bytes);
    TodoPad(|bytes|, rest, first);
    Joined(bytes, Zeros(|p| - |bytes|), Body(|p|, rest, first));
    BodyTaken(p, rest, first, ChunkSize(|p|, |rest|), AfterChunk(p, rest, first));
  }

  lemma BodyTaken(p: seq<byte>, rest: seq<byte>, first: bool, c: nat, after: seq<byte>)
    requires rest != [] && HasRoom(|p|) && c == ChunkSize(|p|, |rest|) && after == AfterChunk(p, rest, first)
    ensures c < |rest| ==> HasRoom(|after|)
    ensures p + Body(|p|, rest, first) == after + Todo(|after|, rest[c..], false)
  {
    var chunk := Chunk(ChunkType(first, c == |rest|), rest[..c]);
    BodyStep(|p|, rest, first);
    Follows(p, chunk, Todo(|p| + c + HEADER, rest[c..], false), after, Body(|p|, rest, first));
  }

  lemma Follows(p: seq<byte>, chunk: seq<byte>, tail: seq<byte>, after: seq<byte>, body: seq<byte>)
    requires after == p + chunk && body == chunk + tail
    ensures |after| == |p| + |chunk| && p + body == after + tail
  {
  }

  lemma NoMore(s: seq<byte>)
    ensures s + [] == s
  {
  }

  lemma InPage(pageStart: nat, a: nat)
    requires pageStart % PAGE == 0 && a <= PAGE
    ensures Offset(pageStart + a) == if a == PAGE then 0 else a
  {
    OffsetIs(pageStart + a);
  }

  /** What is allowed when a page is given up still is on the next one. */
  lemma NextPage(pageStart: nat, a: nat, capacity: nat, left: nat)
    requires pageStart % PAGE == 0 && capacity % PAGE == 0 && pageStart < capacity && a <= PAGE <= a + HEADER
    requires left <= Remaining(pageStart, a, capacity) + if a < PAGE then 0 else HEADER
    ensures pageStart + PAGE <= capacity
    ensures if pageStart + PAGE == capacity then left <= HEADER else left <= Remaining(pageStart + PAGE, 0, capacity)
  {
    var pages := (capacity - pageStart) / PAGE;
    assert capacity == pageStart + pages * PAGE;
    assert (capacity - (pageStart + PAGE)) / PAGE == pages - 1;
  }

  lemma SizeOnPage(pos: nat, a: nat, left: nat)
    requires Offset(pos) == a && a + HEADER < PAGE
    ensures HasRoom(pos) && ChunkSize(pos, left) == if left <= PAGE - a - HEADER then left else PAGE - a - HEADER
    ensures ChunkSize(pos, left) < left ==> HasRoom(pos + ChunkSize(pos, left) + HEADER)
  {
    ChunkEnds(pos, left);
  }

  /** A chunk that fills its page leaves no more than the pages after it hold, and a header. */
  lemma CapacityLeft(pageStart: nat, a: nat, capacity: nat, left: nat)
    requires a + HEADER < PAGE && pageStart <= capacity && pageStart % PAGE == 0 && capacity % PAGE == 0
    requires if pageStart == capacity then left <= HEADER && a == 0 else left <= Remaining(pageStart, a, capacity)
    ensures left > PAGE - a - HEADER ==>
      pageStart < capacity && left - (PAGE - a - HEADER) <= Remaining(pageStart, PAGE, capacity) + HEADER
  {
  }

  lemma AddNone(s: seq<byte>)
    ensures s + Zeros(0) == s
  {
  }

  lemma JoinedThree(s: seq<byte>, a: seq<byte>, b: seq<byte>, c: seq<byte>)
    ensures s + a + b + c == s + (a + b + c)
  {
  }

  class Segment {
    const segno: nat
    const capacity: nat
    const page: array<byte>
    var file: seq<byte>
    var pageAllocated: nat
    var pageFlushed: nat
    var pageStart: nat

    ghost predicate Valid()
      reads this, page
    {
      && segno >= 1 && page.Length == PAGE && pageFlushed <= pageAllocated <= PAGE
      && capacity % PAGE == 0 && pageStart % PAGE == 0
      && |file| == pageStart + pageFlushed
      && forall i :: pageAllocated <= i < PAGE ==> page[i] == 0
    }

    /** What the capacity check asserts, and that a page beyond the capacity never fills. */
    ghost predicate InBounds()
      reads this
    {
      pageStart <= capacity && (pageStart == capacity ==> pageAllocated + HEADER < PAGE)
    }

    /** The logical stream: the file and the bytes of the page that are not yet in it. */
    ghost function Bytes(): seq<byte>
      requires Valid()
      reads this, page
    {
      file + page[pageFlushed..pageAllocated]
    }

    constructor (segno: nat, capacity: nat)
      requires segno >= 1 && capacity % PAGE == 0
      ensures Valid() && InBounds() && Bytes() == [] && file == [] && this.segno == segno && this.capacity == capacity
      ensures fresh(page)
    {
      this.segno := segno;
      this.capacity := capacity;
      page := new byte[PAGE](_ => 0);
      file := [];
      pageAllocated, pageFlushed, pageStart := 0, 0, 0;
    }

    function SegmentStart(): nat { if segno > 0 then (segno - 1) * capacity else 0 }

    method CurrentLsn() returns (lsn: nat)
      requires Valid()
      ensures lsn == SegmentStart() + |Bytes()|
    {
      lsn := SegmentStart() + (pageStart + pageAllocated);
    }

    method FlushedLsn() returns (lsn: nat)
      requires Valid()
      ensures lsn == SegmentStart() + |file|
    {
      lsn := SegmentStart() + (pageStart + pageFlushed);
    }

    predicate Dirty()
      reads this
    {
      pageAllocated != pageFlushed
    }

    /** False when the segment is full; the subtraction is safe because a page never starts beyond it. */
    predicate SufficientCapacity(size: nat)
      requires Valid() && InBounds()
      reads this, page
    {
      capacity != pageStart && Remaining(pageStart, pageAllocated, capacity) >= size
    }

    /** Copies bytes to the page. */
    method Put(bytes: seq<byte>)
      requires Valid() && pageAllocated + |bytes| <= PAGE
      modifies this`pageAllocated, page
      ensures Valid() && pageAllocated == old(pageAllocated) + |bytes|
      ensures page[..pageAllocated] == old(page[..pageAllocated]) + bytes
      ensures Bytes() == old(Bytes()) + bytes
    {
      forall i | 0 <= i < |bytes| {
        page[pageAllocated + i] := bytes[i];
      }
      pageAllocated := pageAllocated + |bytes|;
      assert page[..pageAllocated] == old(page[..pageAllocated]) + bytes;
      assert page[pageFlushed..pageAllocated] == page[..pageAllocated][pageFlushed..];
      assert old(page[pageFlushed..pageAllocated]) == old(page[..pageAllocated])[pageFlushed..];
      assert Bytes() == old(Bytes()) + bytes;
    }

    /** Writes one chunk: type, length, data, and the checksum of the three. */
    method PutChunk(typ: byte, data: seq<byte>)
      requires Valid() && pageAllocated + |data| + HEADER <= PAGE
      modifies this`pageAllocated, page
      ensures Valid() && pageAllocated == old(pageAllocated) + |data| + HEADER
      ensures Bytes() == old(Bytes()) + Chunk(typ, data)
    {
      var start := pageAllocated;
      ghost var before, bytes := page[..start], Bytes();
      Put([typ]);
      Put(Le16(|data|));
      Put(data);
      JoinedThree(before, [typ], Le16(|data|), data);
      JoinedThree(bytes, [typ], Le16(|data|), data);
      ghost var covered := Bytes();
      assert page[start..pageAllocated] == page[..pageAllocated][start..] == Covered(typ, data);
      var checksum := Crc32(page[start..pageAllocated]);
      Put(Le32(checksum));
      Joined(bytes, Covered(typ, data), Le32(checksum));
    }

    /** Writes the page to the file; a reset page, or one without room for a header, is filled with zeros. */
    method FlushPage(reset: bool)
      requires Valid()
      modifies this, page
      ensures Valid() && file == Bytes() && pageFlushed == pageAllocated
      ensures
        var filled := reset || old(pageAllocated) + HEADER >= PAGE;
        && Bytes() == old(Bytes()) + Zeros(if filled then PAGE - old(pageAllocated) else 0)
        && pageStart == old(pageStart) + (if filled then PAGE else 0)
        && pageAllocated == (if filled then 0 else old(pageAllocated))
      ensures old(InBounds()) && (reset ==> old(pageStart) < capacity) ==> InBounds()
    {
      var filled := reset || pageAllocated + HEADER >= PAGE;
      if filled { pageAllocated := PAGE; }
      file := file + page[pageFlushed..pageAllocated];
      pageFlushed := pageAllocated;
      if filled {
        assert old(page[pageFlushed..PAGE]) == old(page[pageFlushed..pageAllocated]) + Zeros(PAGE - old(pageAllocated));
        forall i | 0 <= i < PAGE {
          page[i] := 0;
        }
        pageAllocated := 0;
        pageFlushed := 0;
        pageStart := pageStart + PAGE;
      }
      assert Bytes() == file;
    }

    /** Takes a new page when this one has no room for a chunk. */
    method EnsureRoom(ghost left: nat, ghost first: bool)
      requires Valid() && pageStart < capacity && (first || pageAllocated == PAGE)
      requires left <= Remaining(pageStart, pageAllocated, capacity) + if first then 0 else HEADER
      modifies this, page
      ensures Valid() && InBounds() && pageAllocated + HEADER < PAGE && Offset(|Bytes()|) == pageAllocated
      ensures Bytes() == Padded(old(Bytes()))
      ensures if pageStart == capacity then left <= HEADER && pageAllocated == 0 else left <= Remaining(pageStart, pageAllocated, capacity)
    {
      hide Offset, Remaining;
      InPage(pageStart, pageAllocated);
      InPage(pageStart + PAGE, 0);
      if PAGE - pageAllocated <= HEADER {
        NextPage(pageStart, pageAllocated, capacity, left);
        FlushPage(true);
      } else {
        AddNone(Bytes());
      }
    }

    /** Writes what fits of a record to the page. */
    method PutNext(rest: seq<byte>, recordType: byte) returns (typ: byte, size: nat)
      requires Valid() && rest != [] && pageAllocated + HEADER < PAGE
      requires recordType == NONE || recordType == FIRST || recordType == MIDDLE
      modifies this`pageAllocated, page
      ensures Valid() && pageAllocated == old(pageAllocated) + size + HEADER
      ensures 0 < size <= |rest| && (size < |rest| ==> (typ == FIRST || typ == MIDDLE) && pageAllocated == PAGE)
      ensures typ == ChunkType(recordType == NONE, size == |rest|)
      ensures size == if |rest| <= PAGE - old(pageAllocated) - HEADER then |rest| else PAGE - old(pageAllocated) - HEADER
      ensures Bytes() == old(Bytes()) + Chunk(typ, rest[..size])
    {
      size := if |rest| <= PAGE - pageAllocated - HEADER then |rest| else PAGE - pageAllocated - HEADER;
      var lastChunk := size == |rest|;
      typ := if recordType == NONE then (if lastChunk then FULL else FIRST) else (if lastChunk then LAST else MIDDLE);
      PutChunk(typ, rest[..size]);
    }

    /** Writes the next chunk of a record, on a new page if this one has no room for it. */
    method NextChunk(rest: seq<byte>, recordType: byte) returns (typ: byte, size: nat)
      requires Valid() && rest != [] && pageStart < capacity
      requires recordType == NONE || ((recordType == FIRST || recordType == MIDDLE) && pageAllocated == PAGE)
      requires |rest| <= Remaining(pageStart, pageAllocated, capacity) + if recordType == NONE then 0 else HEADER
      modifies this, page
      ensures Valid() && InBounds() && 0 < size <= |rest|
      ensures size < |rest| ==> (typ == FIRST || typ == MIDDLE) && pageAllocated == PAGE && pageStart < capacity
      ensures size < |rest| ==> |rest| - size <= Remaining(pageStart, pageAllocated, capacity) + HEADER
      ensures pageAllocated > 0
      ensures size == ChunkSize(|Padded(old(Bytes()))|, |rest|)
      ensures Bytes() == AfterChunk(Padded(old(Bytes())), rest, recordType == NONE)
    {
      EnsureRoom(|rest|, recordType == NONE);
      SizeOnPage(|Bytes()|, pageAllocated, |rest|);
      CapacityLeft(pageStart, pageAllocated, capacity, |rest|);
      typ, size := PutNext(rest, recordType);
    }

    /** Appends a record, chunk by chunk, and returns the position after it. */
    method Append(record: seq<byte>) returns (r: Option<nat>)
      requires Valid() && InBounds()
      modifies this, page
      ensures Valid() && InBounds()
      ensures r.None? <==> !old(SufficientCapacity(|record|))
      ensures r.None? ==> Bytes() == old(Bytes()) && file == old(file)
      ensures if r.Some? && record != [] then pageAllocated > 0 else pageStart == old(pageStart) && pageAllocated == old(pageAllocated)
      ensures r.Some? ==> Bytes() == old(Bytes()) + Encode(|old(Bytes())|, record) && r.value == SegmentStart() + |Bytes()|
    {
      if !SufficientCapacity(|record|) { return None; }
      var rest := record;
      var recordType := NONE;
      ghost var whole := Bytes() + Todo(|Bytes()|, rest, true);
      while rest != []
        invariant Valid() && InBounds()
        invariant recordType == NONE || rest == [] || ((recordType == FIRST || recordType == MIDDLE) && pageAllocated == PAGE && HasRoom(|Bytes()|))
        invariant rest != [] ==> pageStart < capacity
        invariant rest != [] ==> |rest| <= Remaining(pageStart, pageAllocated, capacity) + if recordType == NONE then 0 else HEADER
        invariant whole == Bytes() + Todo(|Bytes()|, rest, recordType == NONE)
        invariant if rest != record then pageAllocated > 0 else pageStart == old(pageStart) && pageAllocated == old(pageAllocated)
        decreases |rest|
      {
        ChunkTaken(Bytes(), rest, recordType == NONE);
        var typ, size := NextChunk(rest, recordType);
        recordType, rest := typ, rest[size..];
      }
      NoMore(Bytes());
      var lsn := CurrentLsn();
      return Some(lsn);
    }
  }
}

/** Reading records back from a segment's file. */
module SegmentView {
  import opened Options
  import opened Bytes
  import opened WalFormat

  /** A record, and a position or a length. */
  datatype Found = Found(data: seq<byte>, pos: nat)

  type Outcome = Result<Option<Found>>

  /** The page start after a position. */
  function NextPage(p: nat): nat { p + (PAGE - Offset(p)) }

  /** The data of the chunk at a position, if it is whole and its checksum is right. */
  function Payload(f: seq<byte>, p: nat): Result<seq<byte>>
    requires p + HEADER < |f|
  {
    var end := p + 3 + FromLe16(f[p + 1..p + 3]);
    if end + CHECKSUM > |f| then Err(DataCorrupted)
    else if Crc32(f[p..end]) != FromLe32(f[end..end + CHECKSUM]) then Err(DataCorrupted)
    else Ok(f[p + 3..end])
  }

  /** The loop of the reader from position `p`, with the data read so far. */
  function ReadLoop(f: seq<byte>, p: nat, buffer: seq<byte>, started: bool): Outcome
    decreases |f| - p
  {
    if |f| <= p + HEADER then Err(DataCorrupted)
    else if f[p] == NONE then
      var next := NextPage(p + 1);
      if |f| <= next + HEADER && !started then Ok(None) else ReadLoop(f, next, buffer, started)
    else if f[p] > LAST then Err(DataCorrupted)
    else
      match Payload(f, p)
      case Err(e) => Err(e)
      case Ok(data) =>
        var end := p + HEADER + |data|;
        if f[p] == FULL || f[p] == LAST then Ok(Some(Found(buffer + data, end)))
        else ReadLoop(f, end, buffer + data, true)
  }

  /** A position as a distance from the offset. */
  function From(offset: nat, r: Outcome): Outcome {
    if r.Ok? && r.value.Some? then
      var found := r.value.value;
      if found.pos >= offset then Ok(Some(Found(found.data, found.pos - offset))) else Ok(None)
    else r
  }

  /** The record at an offset, and how far the reader has come. */
  function Read(f: seq<byte>, offset: nat): Outcome {
    if |f| <= offset + HEADER then Ok(None) else From(offset, ReadLoop(f, offset, [], false))
  }

  method ReadPayload(f: seq<byte>, recStart: nat) returns (r: Result<seq<byte>>)
    requires recStart + HEADER < |f|
    ensures r == Payload(f, recStart)
  {
    var p := recStart + 1;
    var length := FromLe16(f[p..p + 2]);
    p := p + 2;
    if p + length + CHECKSUM > |f| { return Err(DataCorrupted); }
    var checksum := Crc32(f[recStart..p + length]);
    if checksum != FromLe32(f[p + length..p + length + CHECKSUM]) { return Err(DataCorrupted); }
    return Ok(f[p..p + length]);
  }

  method ReadRecord(f: seq<byte>, offset: nat) returns (r: Outcome)
    ensures r == Read(f, offset)
  {
    hide Offset, Payload;
    if |f| <= offset + HEADER { return Ok(None); }
    var p := offset;
    var buffer: seq<byte> := [];
    var started := false;
    ghost var goal := ReadLoop(f, offset, [], false);
    while true
      invariant p >= offset && ReadLoop(f, p, buffer, started) == goal
      decreases |f| - p
    {
      if |f| <= p + HEADER { return Err(DataCorrupted); }
      var recType := f[p];
      if recType == NONE {
        p := NextPage(p + 1);
        if |f| <= p + HEADER && !started { return Ok(None); }
        continue;
      }
      if recType > LAST { return Err(DataCorrupted); }
      var chunk := ReadPayload(f, p);
      if chunk.Err? { return Err(chunk.error); }
      buffer := buffer + chunk.value;
      p := p + HEADER + |chunk.value|;
      if recType == FULL || recType == LAST { return Ok(Some(Found(buffer, p - offset))); }
      started := true;
    }
  }

  // ----- a record that is there -----

  lemma ChunkAt(f: seq<byte>, p: nat, typ: byte, data: seq<byte>)
    requires Has(f, p, Chunk(typ, data)) && 0 < |data| < 0x10000
    ensures p + HEADER + |data| <= |f| && f[p] == typ && Payload(f, p) == Ok(data)
  {
    var covered := Covered(typ, data);
    HasParts(f, p, covered, Le32(Crc32(covered)));
    HasSlice(f, p, covered);
    HasSlice(f, p + |covered|, Le32(Crc32(covered)));
    Le32Back(Crc32(covered));
    HasParts(f, p, [typ] + Le16(|data|), data);
    HasSlice(f, p + 3, data);
    HasParts(f, p, [typ], Le16(|data|));
    HasSlice(f, p + 1, Le16(|data|));
    Le16Back(|data|);
  }

  lemma ReadChunk(f: seq<byte>, p: nat, typ: byte, data: seq<byte>, buffer: seq<byte>, started: bool)
    requires Has(f, p, Chunk(typ, data)) && 0 < |data| < 0x10000 && NONE < typ <= LAST
    ensures ReadLoop(f, p, buffer, started) ==
      if typ == FULL || typ == LAST then Ok(Some(Found(buffer + data, p + HEADER + |data|)))
      else ReadLoop(f, p + HEADER + |data|, buffer + data, true)
  {
    ChunkAt(f, p, typ, data);
  }

  /** A record from `p` on is read whole. */
  ghost predicate Reads(f: seq<byte>, p: nat, rest: seq<byte>, buffer: seq<byte>, started: bool)
    requires HasRoom(p)
  {
    ReadLoop(f, p, buffer, started) == Ok(Some(FoundAt(p, rest, buffer)))
  }

  function FoundAt(p: nat, rest: seq<byte>, buffer: seq<byte>): Found
    requires HasRoom(p)
  {
    Found(buffer + rest, p + Span(p, |rest|))
  }

  lemma ReadLast(f: seq<byte>, p: nat, rest: seq<byte>, first: bool, buffer: seq<byte>, started: bool)
    requires HasRoom(p) && rest != [] && Has(f, p, Body(p, rest, first)) && ChunkSize(p, |rest|) == |rest|
    ensures Reads(f, p, rest, buffer, started)
  {
    BodyLast(p, rest, first);
    ReadChunk(f, p, ChunkType(first, true), rest, buffer, started);
  }

  lemma ReadFirst(f: seq<byte>, p: nat, rest: seq<byte>, first: bool, buffer: seq<byte>, started: bool)
    requires HasRoom(p) && rest != [] && Has(f, p, Body(p, rest, first)) && ChunkSize(p, |rest|) < |rest|
    ensures
      var c := ChunkSize(p, |rest|);
      ReadLoop(f, p, buffer, started) == ReadLoop(f, p + c + HEADER, buffer + rest[..c], true)
  {
    var c := ChunkSize(p, |rest|);
    BodyMore(f, p, rest, first);
    ReadChunk(f, p, ChunkType(first, false), rest[..c], buffer, started);
    assert p + HEADER + |rest[..c]| == p + c + HEADER;
  }

  lemma SameFound(p: nat, rest: seq<byte>, buffer: seq<byte>)
    requires HasRoom(p) && rest != [] && ChunkSize(p, |rest|) < |rest| && HasRoom(p + ChunkSize(p, |rest|) + HEADER)
    ensures
      var c := ChunkSize(p, |rest|);
      FoundAt(p + c + HEADER, rest[c..], buffer + rest[..c]) == FoundAt(p, rest, buffer)
  {
    var c := ChunkSize(p, |rest|);
    Regroup(buffer, rest, c);
    assert |rest[c..]| == |rest| - c;
  }

  /** Reading the chunks of a record from anywhere in it. */
  lemma {:induction false} ReadBody(f: seq<byte>, p: nat, rest: seq<byte>, first: bool, buffer: seq<byte>, started: bool)
    requires HasRoom(p) && rest != [] && Has(f, p, Body(p, rest, first))
    ensures Reads(f, p, rest, buffer, started)
    decreases |rest|
  {
    var c := ChunkSize(p, |rest|);
    if c == |rest| {
      ReadLast(f, p, rest, first, buffer, started);
    } else {
      BodyMore(f, p, rest, first);
      ReadBody(f, p + c + HEADER, rest[c..], false, buffer + rest[..c], true);
      ReadFirst(f, p, rest, first, buffer, started);
      SameFound(p, rest, buffer);
    }
  }

  lemma BodyLast(p: nat, rest: seq<byte>, first: bool)
    requires HasRoom(p) && rest != [] && ChunkSize(p, |rest|) == |rest|
    ensures Body(p, rest, first) == Chunk(ChunkType(first, true), rest)
  {
  }

  lemma BodyMore(f: seq<byte>, p: nat, rest: seq<byte>, first: bool)
    requires HasRoom(p) && rest != [] && Has(f, p, Body(p, rest, first)) && ChunkSize(p, |rest|) < |rest|
    ensures
      var c := ChunkSize(p, |rest|);
      && HasRoom(p + c + HEADER)
      && Has(f, p, Chunk(ChunkType(first, false), rest[..c])) && Has(f, p + c + HEADER, Body(p + c + HEADER, rest[c..], false))
  {
    var c := ChunkSize(p, |rest|);
    ChunkEnds(p, |rest|);
    HasParts(f, p, Chunk(ChunkType(first, false), rest[..c]), Body(p + c + HEADER, rest[c..], false));
  }

  lemma Regroup(buffer: seq<byte>, rest: seq<byte>, c: nat)
    requires c <= |rest|
    ensures buffer + rest[..c] + rest[c..] == buffer + rest
  {
    assert rest[..c] + rest[c..] == rest;
  }

  lemma {:induction false} ReadAdvances(f: seq<byte>, p: nat, buffer: seq<byte>, started: bool)
    ensures ReadLoop(f, p, buffer, started).Ok? && ReadLoop(f, p, buffer, started).value.Some? ==>
      ReadLoop(f, p, buffer, started).value.value.pos > p
    decreases |f| - p
  {
    if |f| > p + HEADER {
      if f[p] == NONE {
        ReadAdvances(f, NextPage(p + 1), buffer, started);
      } else {
        if Payload(f, p).Ok? {
          var data := Payload(f, p).value;
          ReadAdvances(f, p + HEADER + |data|, buffer + data, true);
        }
      }
    }
  }

  /** A zero where a chunk's type would be sends the reader to the page after. */
  lemma ReadSkips(f: seq<byte>, p: nat)
    requires p + HEADER < |f| && f[p] == NONE
    ensures Read(f, p) ==
      if |f| <= NextPage(p + 1) + HEADER then Ok(None) else From(p, ReadLoop(f, NextPage(p + 1), [], false))
  {
  }

  /** From padding the reader goes to the place of the next record, or from its last byte a page too far. */
  lemma FromPadding(offset: nat)
    requires !HasRoom(offset)
    ensures offset < Place(offset) && HasRoom(Place(offset)) && HasRoom(Place(offset) + PAGE)
    ensures NextPage(offset + 1) == if Offset(offset) == PAGE - 1 then Place(offset) + PAGE else Place(offset)
    ensures Offset(Place(offset)) == 0
  {
    PlaceHasRoom(offset);
    OffsetIs(offset);
    OffsetIs(offset + 1);
    OffsetIs(Place(offset) + PAGE);
  }

  /** The record behind its padding. */
  lemma Framed(f: seq<byte>, offset: nat, record: seq<byte>)
    requires record != [] && Has(f, offset, Encode(offset, record))
    ensures
      var at := Place(offset);
      && offset <= at && HasRoom(at) && Has(f, at, Body(at, record, true)) && |Encode(offset, record)| == at - offset + |Body(at, record, true)|
      && |Body(at, record, true)| > HEADER && at + |Body(at, record, true)| <= |f|
      && (offset < at ==> f[offset] == NONE)
  {
    var at := Place(offset);
    EncodeAt(offset, at, record);
    BodySpan(at, record, true);
    HasParts(f, offset, Zeros(at - offset), Body(at, record, true));
    HasSlice(f, at, Body(at, record, true));
    if offset < at { assert Zeros(at - offset)[0] == 0; }
  }

  lemma NoBuffer(s: seq<byte>)
    ensures [] + s == s
  {
  }

  /** Padding that does not start one byte before a page end leads to the record behind it. */
  lemma ReadsPlaced(f: seq<byte>, offset: nat, record: seq<byte>)
    requires record != [] && Has(f, offset, Encode(offset, record)) && Offset(offset) != PAGE - 1
    ensures Read(f, offset) == Ok(Some(Found(record, |Encode(offset, record)|)))
  {
    Framed(f, offset, record);
    ReadWhole(f, Place(offset), record);
    if !HasRoom(offset) {
      FromPadding(offset);
      ReadSkips(f, offset);
    }
  }

  lemma ReadWhole(f: seq<byte>, at: nat, record: seq<byte>)
    requires record != [] && HasRoom(at) && Has(f, at, Body(at, record, true))
    ensures ReadLoop(f, at, [], false) == Ok(Some(Found(record, at + |Body(at, record, true)|)))
  {
    ReadBody(f, at, record, true, [], false);
    BodySpan(at, record, true);
    NoBuffer(record);
  }

  /** What the reader finds a page too far is not the record: it ends later, or it is only the tail. */
  lemma PageTooFar(f: seq<byte>, at: nat, record: seq<byte>)
    requires record != [] && HasRoom(at) && Offset(at) == 0 && Has(f, at, Body(at, record, true))
    ensures ReadLoop(f, at + PAGE, [], false) != Ok(Some(Found(record, at + |Body(at, record, true)|)))
  {
    var next := at + PAGE;
    ReadAdvances(f, next, [], false);
    BodySpan(at, record, true);
    var c := ChunkSize(at, |record|);
    if c < |record| {
      HasParts(f, at, Chunk(ChunkType(true, false), record[..c]), Body(next, record[c..], false));
      ReadBody(f, next, record[c..], false, [], false);
      NoBuffer(record[c..]);
    }
  }

  /** Padding of one byte makes the reader miss a page: it does not return the record. */
  lemma MissesPage(f: seq<byte>, offset: nat, record: seq<byte>)
    requires record != [] && Has(f, offset, Encode(offset, record)) && Offset(offset) == PAGE - 1
    ensures Read(f, offset) != Ok(Some(Found(record, |Encode(offset, record)|)))
  {
    Framed(f, offset, record);
    FromPadding(offset);
    ReadSkips(f, offset);
    PageTooFar(f, Place(offset), record);
  }

  /** A record is read back from the position before it exactly when that position is not the last
      byte of a page. */
  lemma ReadsBackIff(f: seq<byte>, offset: nat, record: seq<byte>)
    requires record != [] && Has(f, offset, Encode(offset, record))
    ensures Read(f, offset) == Ok(Some(Found(record, |Encode(offset, record)|))) <==> Offset(offset) != PAGE - 1
  {
    if Offset(offset) == PAGE - 1 { MissesPage(f, offset, record); } else { ReadsPlaced(f, offset, record); }
  }

  /** Behind the last record there is nothing, or zeros to the page's end. */
  ghost predicate OnlyPadding(f: seq<byte>, offset: nat) {
    && offset <= |f|
    && (forall i :: offset <= i < |f| ==> f[i] == 0)
    && (offset < |f| ==> Offset(offset) != 0 && |f| == offset - Offset(offset) + PAGE)
  }

  lemma ReadsEnd(f: seq<byte>, offset: nat)
    requires OnlyPadding(f, offset)
    ensures Read(f, offset) == Ok(None)
  {
    if |f| > offset + HEADER {
      OffsetIs(offset);
      OffsetIs(offset + 1);
      ReadSkips(f, offset);
    }
  }
}

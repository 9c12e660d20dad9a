/** How records lie in a log segment: pages, chunks and padding. */
module WalFormat {
  import opened Options
  import opened Bytes

  const PAGE := 0x10000
  const CHECKSUM := 4
  const HEADER := 7 // type, length, checksum

  // ----- chunks -----

  const NONE: byte := 0
  const FULL: byte := 1
  const FIRST: byte := 2
  const MIDDLE: byte := 3
  const LAST: byte := 4

  function ChunkType(first: bool, last: bool): byte {
    if first then if last then FULL else FIRST else if last then LAST else MIDDLE
  }

  /** What the checksum covers. */
  function Covered(typ: byte, data: seq<byte>): (s: seq<byte>)
    ensures |s| == |data| + 3
  {
    [typ] + Le16(|data|) + data
  }

  function Chunk(typ: byte, data: seq<byte>): (s: seq<byte>)
    ensures |s| == |data| + HEADER
  {
    Covered(typ, data) + Le32(Crc32(Covered(typ, data)))
  }

  // ----- records -----

  function Zeros(n: nat): (s: seq<byte>)
    ensures |s| == n && forall i :: 0 <= i < n ==> s[i] == 0
  {
    seq(n, _ => 0)
  }

  /** The offset in the page, `pos % PAGE`; written by subtraction, which keeps the remainder out of
      proofs that do not need it. */
  function Offset(pos: nat): (o: nat)
    ensures o < PAGE && o <= pos
  {
    if pos < PAGE then pos else Offset(pos - PAGE)
  }

  lemma {:induction false} OffsetIs(pos: nat)
    ensures Offset(pos) == pos % PAGE
  {
    if pos >= PAGE { OffsetIs(pos - PAGE); }
  }

  /** A chunk needs more than a header's room on its page; with less, the next page is taken. */
  function Place(pos: nat): nat {
    if Offset(pos) + HEADER >= PAGE then pos - Offset(pos) + PAGE else pos
  }

  predicate HasRoom(pos: nat) {
    Offset(pos) + HEADER < PAGE
  }

  lemma PlaceHasRoom(pos: nat)
    ensures HasRoom(Place(pos)) && pos <= Place(pos) <= pos + HEADER
    ensures Place(pos) != pos ==> Offset(Place(pos)) == 0
    ensures Offset(Place(pos)) == if HasRoom(pos) then Offset(pos) else 0
  {
    OffsetIs(pos);
    OffsetIs(Place(pos));
  }

  /** The data of the next chunk: what is left, or what the page has room for. */
  function ChunkSize(pos: nat, left: nat): (c: nat)
    requires HasRoom(pos)
    ensures c <= left && (left > 0 ==> c > 0) && c + HEADER <= PAGE
  {
    if left <= PAGE - Offset(pos) - HEADER then left else PAGE - Offset(pos) - HEADER
  }

  /** A chunk that does not end its record ends its page. */
  lemma ChunkEnds(pos: nat, left: nat)
    requires HasRoom(pos)
    ensures ChunkSize(pos, left) < left ==>
      && Offset(pos + ChunkSize(pos, left) + HEADER) == 0
      && pos + ChunkSize(pos, left) + HEADER == pos - Offset(pos) + PAGE
  {
    OffsetIs(pos);
    OffsetIs(pos + ChunkSize(pos, left) + HEADER);
  }

  /** The chunks of a record from a position with room. */
  function Body(pos: nat, data: seq<byte>, first: bool): seq<byte>
    requires HasRoom(pos) && data != []
    decreases |data|
  {
    var c := ChunkSize(pos, |data|);
    ChunkEnds(pos, |data|);
    if c == |data| then Chunk(ChunkType(first, true), data)
    else Chunk(ChunkType(first, false), data[..c]) + Body(pos + c + HEADER, data[c..], false)
  }

  /** How many bytes these take. */
  function Span(pos: nat, n: nat): nat
    requires HasRoom(pos)
    decreases n
  {
    if n == 0 then 0
    else
      var c := ChunkSize(pos, n);
      ChunkEnds(pos, n);
      c + HEADER + if c == n then 0 else Span(pos + c + HEADER, n - c)
  }

  lemma {:induction false} BodySpan(pos: nat, data: seq<byte>, first: bool)
    requires HasRoom(pos) && data != []
    ensures |Body(pos, data, first)| == Span(pos, |data|)
    decreases |data|
  {
    var c := ChunkSize(pos, |data|);
    ChunkEnds(pos, |data|);
    if c < |data| { BodySpan(pos + c + HEADER, data[c..], false); }
  }

  /** What appending a record adds to a stream of length `pos`; an empty record adds nothing. */
  function Encode(pos: nat, data: seq<byte>): seq<byte> {
    if data == [] then []
    else
      PlaceHasRoom(pos);
      Zeros(Place(pos) - pos) + Body(Place(pos), data, true)
  }

  /** The position after it. */
  function End(pos: nat, n: nat): nat {
    PlaceHasRoom(pos);
    if n == 0 then pos else Place(pos) + Span(Place(pos), n)
  }

  lemma EncodeEnd(pos: nat, data: seq<byte>)
    ensures pos + |Encode(pos, data)| == End(pos, |data|)
  {
    if data != [] {
      PlaceHasRoom(pos);
      BodySpan(Place(pos), data, true);
    }
  }

  /** The stream of a segment's records. */
  function Stream(records: seq<seq<byte>>): seq<byte> {
    if records == [] then []
    else
      var n := |records| - 1;
      var s := Stream(records[..n]);
      s + Encode(|s|, records[n])
  }

  lemma StreamSnoc(records: seq<seq<byte>>, r: seq<byte>)
    ensures Stream(records + [r]) == Stream(records) + Encode(|Stream(records)|, r)
  {
    assert (records + [r])[..|records|] == records;
  }

  lemma NoZeros(s: seq<byte>)
    ensures Zeros(0) + s == s
  {
  }

  lemma EncodeAt(pos: nat, at: nat, data: seq<byte>)
    requires data != [] && at == Place(pos)
    ensures pos <= at && HasRoom(at) && Encode(pos, data) == Zeros(at - pos) + Body(at, data, true)
  {
    PlaceHasRoom(pos);
  }

  /** Padding up to the next place only anticipates what the next record adds. */
  lemma PaddedEncode(pos: nat, at: nat, data: seq<byte>)
    requires data != [] && pos <= at && (at == pos || at == Place(pos))
    ensures Zeros(at - pos) + Encode(at, data) == Encode(pos, data)
  {
    if at == pos {
      NoZeros(Encode(pos, data));
    } else {
      EncodeAt(pos, at, data);
      EncodeAt(at, at, data);
      NoZeros(Body(at, data, true));
    }
  }

  // ----- room in a segment -----

  /** The most data that ends at or before the capacity. */
  function Room(pos: nat, capacity: nat): nat
    requires pos - Offset(pos) <= capacity
  {
    var here := if HasRoom(pos) then PAGE - Offset(pos) - HEADER else 0;
    var pages := (capacity - (pos - Offset(pos))) / PAGE;
    if pages == 0 then 0 else here + (PAGE - HEADER) * (pages - 1)
  }

  /** Whole pages from a page start. */
  lemma {:induction false} SpanPages(pos: nat, n: nat, pages: nat)
    requires Offset(pos) == 0
    ensures Span(pos, n) <= pages * PAGE <==> n <= pages * (PAGE - HEADER)
    decreases n
  {
    if n > 0 {
      var c := ChunkSize(pos, n);
      ChunkEnds(pos, n);
      if c < n && pages > 0 {
        SpanPages(pos + PAGE, n - c, pages - 1);
      } else if c < n {
        assert Span(pos, n) > 0;
      }
    }
  }

  /** From any place with room. */
  lemma SpanRoom(pos: nat, n: nat, capacity: nat)
    requires HasRoom(pos) && capacity % PAGE == 0 && pos - Offset(pos) < capacity
    ensures pos + Span(pos, n) <= capacity <==> n <= Room(pos, capacity)
  {
    OffsetIs(pos);
    if n > 0 {
      var c := ChunkSize(pos, n);
      ChunkEnds(pos, n);
      var next := pos - Offset(pos) + PAGE;
      var pages := (capacity - next) / PAGE;
      assert capacity == next + pages * PAGE;
      if c < n {
        SpanPages(next, n - c, pages);
        assert Span(pos, n) == next - pos + Span(next, n - c);
      }
    }
  }

  /** A record stays within the segment exactly when its data fits the room. */
  lemma StaysInsideIff(pos: nat, n: nat, capacity: nat)
    requires n > 0 && capacity % PAGE == 0 && pos <= capacity
    ensures End(pos, n) <= capacity <==> n <= Room(pos, capacity)
  {
    PlaceHasRoom(pos);
    OffsetIs(pos);
    var at := Place(pos);
    if at >= capacity {
      assert Span(at, n) > 0;
      assert Room(pos, capacity) == 0;
    } else {
      SpanRoom(at, n, capacity);
      if at != pos {
        var pages := (capacity - at) / PAGE;
        assert (capacity - (pos - Offset(pos))) / PAGE == pages + 1;
        assert Room(at, capacity) == Room(pos, capacity);
      }
    }
  }
}

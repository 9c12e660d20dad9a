/** Table files: data blocks, a filter, an index of the blocks' last keys, and a footer. */
module BlockTable {
  import opened Options
  import opened Bytes
  import opened DataBlock
  import opened FilterBlock

  const MAGIC: u32 := 0xb10cba5e
  const TRAILER := 4
  const FOOTER := 40

  // ----- pointers and framed blocks -----

  datatype ItemPointer = ItemPointer(offset: nat, length: nat)

  function PointerBytes(p: ItemPointer): (s: seq<byte>)
    ensures |s| == 16
  {
    Le64(p.offset) + Le64(p.length)
  }

  function PointerOf(s: seq<byte>): ItemPointer {
    ItemPointer(LongAt(s, 0), LongAt(s, 8))
  }

  ghost predicate Narrow(p: ItemPointer) {
    p.offset < 0x1_0000_0000_0000_0000 && p.length < 0x1_0000_0000_0000_0000
  }

  lemma PointerBack(p: ItemPointer)
    requires Narrow(p)
    ensures PointerOf(PointerBytes(p)) == p
  {
    HasWhole(PointerBytes(p), Le64(p.offset), Le64(p.length));
    LongBack(PointerBytes(p), 0, p.offset);
    LongBack(PointerBytes(p), 8, p.length);
  }

  /** A block with its checksum. */
  function Framed(buf: seq<byte>): (s: seq<byte>)
    ensures |s| == |buf| + TRAILER
  {
    buf + Le32(Crc32(buf))
  }

  // ----- what a table file consists of -----

  /** The pairs of the blocks written, the last block outermost. */
  datatype Blocks = NoBlock | More(front: Blocks, last: seq<Pair>)

  /** The data blocks, one behind the other. */
  function Data(bs: Blocks, interval: nat): seq<byte> {
    match bs
    case NoBlock => []
    case More(front, ps) => Data(front, interval) + Framed(BlockBytes(ps, interval))
  }

  /** The pairs of all blocks. */
  function Flat(bs: Blocks): seq<Pair> {
    match bs
    case NoBlock => []
    case More(front, ps) => Flat(front) + ps
  }

  function LastIn(ps: seq<Pair>): seq<byte> {
    if ps == [] then [] else ps[|ps| - 1].key
  }

  function BlockPointer(front: Blocks, ps: seq<Pair>, interval: nat): ItemPointer {
    ItemPointer(|Data(front, interval)|, |BlockBytes(ps, interval)|)
  }

  /** What the index says: each block's last key, and where the block is. */
  function IndexPairs(bs: Blocks, interval: nat): seq<Pair> {
    match bs
    case NoBlock => []
    case More(front, ps) => IndexPairs(front, interval) + [Pair(LastIn(ps), PointerBytes(BlockPointer(front, ps, interval)))]
  }

  ghost predicate NoneEmpty(bs: Blocks) {
    match bs
    case NoBlock => true
    case More(front, ps) => NoneEmpty(front) && ps != []
  }

  function Keys(ps: seq<Pair>): seq<seq<byte>> {
    seq(|ps|, i requires 0 <= i < |ps| => ps[i].key)
  }

  lemma KeysSnoc(ps: seq<Pair>, p: Pair)
    ensures Keys(ps + [p]) == Keys(ps) + [p.key]
  {
  }

  datatype Footer = Footer(index: ItemPointer, filter: Option<ItemPointer>)

  function FilterOf(f: Footer): ItemPointer {
    if f.filter.Some? then f.filter.value else ItemPointer(0, 0)
  }

  function Toc(f: Footer): (s: seq<byte>)
    ensures |s| == FOOTER - TRAILER
  {
    Le32(MAGIC) + (PointerBytes(f.index) + PointerBytes(FilterOf(f)))
  }

  /** A table: its blocks, how far apart their restarts are, and its filter. */
  datatype Table = Table(blocks: Blocks, interval: nat, filter: seq<byte>)

  function IndexBytes(t: Table): seq<byte> {
    BlockBytes(IndexPairs(t.blocks, t.interval), t.interval)
  }

  function FilterPointer(t: Table): ItemPointer {
    ItemPointer(|Data(t.blocks, t.interval)|, |t.filter|)
  }

  function IndexPointer(t: Table): ItemPointer {
    ItemPointer(|Data(t.blocks, t.interval)| + |t.filter| + TRAILER, |IndexBytes(t)|)
  }

  function FooterOf(t: Table): Footer {
    Footer(IndexPointer(t), Some(FilterPointer(t)))
  }

  function File(t: Table): seq<byte> {
    Data(t.blocks, t.interval) + Framed(t.filter) + Framed(IndexBytes(t)) + Framed(Toc(FooterOf(t)))
  }

  /** A table of the pairs, in blocks that all have some, with a filter for their keys. */
  ghost predicate Holds(t: Table, ps: seq<Pair>) {
    Flat(t.blocks) == ps && NoneEmpty(t.blocks) && FilterFor(t.filter, Keys(ps))
  }

  // ----- the builder -----

  lemma AddedLast(a: seq<Pair>, b: seq<Pair>, p: Pair)
    ensures a + b + [p] == a + (b + [p])
  {
  }

  lemma NoRest(a: seq<Pair>)
    ensures a + [] == a
  {
  }

  lemma LastOfFlat(bs: Blocks, ps: seq<Pair>)
    ensures LastKey(Flat(bs) + ps) == if ps == [] then LastKey(Flat(bs)) else Some(LastIn(ps))
  {
    if ps == [] { assert Flat(bs) + ps == Flat(bs); }
  }

  class BlockTableBuilder {
    const blockSize: nat
    const interval: nat
    const blockBuilder: DataBlockBuilder
    const indexBuilder: DataBlockBuilder
    const filterBuilder: FullFilterBlockBuilder
    var out: seq<byte>
    var outOffset: nat
    var lastKey: Option<seq<byte>>
    ghost var blocks: Blocks // blocks written
    ghost var added: seq<Pair>

    /** The blocks written. */
    ghost predicate Wrote()
      reads this`out, this`outOffset, this`blocks
    {
      out == Data(blocks, interval) && outOffset == |out| && NoneEmpty(blocks)
    }

    ghost predicate Indexed()
      reads this`blocks, indexBuilder
    {
      indexBuilder.Valid() && indexBuilder.restartInterval == interval && indexBuilder.added == IndexPairs(blocks, interval)
    }

    /** The block in the making has the rest. */
    ghost predicate Building()
      reads this`blocks, this`added, blockBuilder
    {
      && blockBuilder.Valid() && blockBuilder.restartInterval == interval
      && added == Flat(blocks) + blockBuilder.added
    }

    ghost predicate Filtered()
      reads this`added, filterBuilder, filterBuilder.filterBitsBuilder
    {
      filterBuilder.Valid() && filterBuilder.keys == Keys(added)
    }

    ghost predicate Valid()
      reads this, blockBuilder, indexBuilder, filterBuilder, filterBuilder.filterBitsBuilder
    {
      blockBuilder != indexBuilder && Wrote() && Indexed() && Building() && Filtered() && lastKey == LastKey(added)
    }

    constructor (blockSize: nat, restartInterval: nat, millibitsPerKey: nat)
      ensures Valid() && added == [] && this.blockSize == blockSize && interval == restartInterval
      ensures filterBuilder.filterBitsBuilder.millibitsPerKey == millibitsPerKey
      ensures fresh(blockBuilder) && fresh(indexBuilder) && fresh(filterBuilder) && fresh(filterBuilder.filterBitsBuilder)
    {
      this.blockSize := blockSize;
      interval := restartInterval;
      blockBuilder := new DataBlockBuilder(restartInterval);
      indexBuilder := new DataBlockBuilder(restartInterval);
      filterBuilder := new FullFilterBlockBuilder(millibitsPerKey);
      out, outOffset, lastKey := [], 0, None;
      blocks, added := NoBlock, [];
    }

    predicate NeedFlush(key: seq<byte>, value: seq<byte>)
      reads this, blockBuilder
    {
      blockBuilder.FullLen() + |key| + |value| > blockSize
    }

    /** Writes a block and its checksum. */
    method WriteBlock(buf: seq<byte>) returns (ptr: ItemPointer)
      modifies this`out, this`outOffset
      ensures out == old(out) + Framed(buf) && outOffset == old(outOffset) + |buf| + TRAILER
      ensures ptr == ItemPointer(old(outOffset), |buf|)
    {
      var crc := Crc32(buf);
      var offset := outOffset;
      out := out + buf;
      outOffset := outOffset + |buf|;
      out := out + Le32(crc);
      outOffset := outOffset + 4;
      Joined(old(out), buf, Le32(crc));
      ptr := ItemPointer(offset, |buf|);
    }

    /** Writes the current block, if there is anything in it. */
    method Flush() returns (r: Option<ItemPointer>)
      requires blockBuilder.Valid()
      modifies this`out, this`outOffset, blockBuilder
      ensures blockBuilder.Valid() && blockBuilder.added == []
      ensures
        var buf := BlockBytes(old(blockBuilder.added), blockBuilder.restartInterval);
        if old(blockBuilder.added) == [] then r == None && out == old(out) && outOffset == old(outOffset)
        else
          && r == Some(ItemPointer(old(outOffset), |buf|))
          && out == old(out) + Framed(buf) && outOffset == old(outOffset) + |buf| + TRAILER
    {
      blockBuilder.EmptyIs();
      if blockBuilder.Empty() { return None; }
      var buf := blockBuilder.Seal();
      blockBuilder.Reset();
      var ptr := WriteBlock(buf);
      return Some(ptr);
    }

    /** The blocks with the one in the making. */
    ghost function Blocked(): Blocks
      reads this, blockBuilder
    {
      if blockBuilder.added == [] then blocks else More(blocks, blockBuilder.added)
    }

    /** A block of these pairs is behind the blocks, and not yet in the index. */
    ghost predicate Ended(ps: seq<Pair>)
      reads this`out, this`outOffset, this`blocks, this`added
    {
      && ps != [] && NoneEmpty(blocks) && out == Data(More(blocks, ps), interval) && outOffset == |out|
      && added == Flat(More(blocks, ps))
    }

    /** Adds a block that is written to the index. */
    method IndexBlock(key: seq<byte>, ptr: ItemPointer, ghost ps: seq<Pair>)
      requires Indexed() && Ended(ps) && key == LastIn(ps) && ptr == BlockPointer(blocks, ps, interval)
      modifies this`blocks, indexBuilder
      ensures Indexed() && Wrote() && blocks == More(old(blocks), ps) && added == Flat(blocks)
    {
      indexBuilder.Add(key, PointerBytes(ptr));
      blocks := More(blocks, ps);
    }

    /** Writes the current block; if it has pairs, it is to be added to the index at the result. */
    method EndBlock() returns (r: Option<ItemPointer>)
      requires Wrote() && Building()
      modifies this`out, this`outOffset, blockBuilder
      ensures blockBuilder.Valid() && blockBuilder.added == []
      ensures
        var ps := old(blockBuilder.added);
        if ps == [] then r == None && Wrote() && added == Flat(blocks)
        else r == Some(BlockPointer(blocks, ps, interval)) && Ended(ps)
    {
      NoRest(Flat(blocks));
      r := Flush();
    }

    /** Ends the current block: writes it, and adds it to the index under the last key. */
    method FinishBlock()
      requires blockBuilder != indexBuilder && Wrote() && Indexed() && Building() && lastKey == LastKey(added)
      modifies this`out, this`outOffset, this`blocks, blockBuilder, indexBuilder
      ensures Wrote() && Indexed() && blocks == old(Blocked()) && added == Flat(blocks)
      ensures blockBuilder.Valid() && blockBuilder.added == []
    {
      hide BuiltOf, Encoded, Bytes.Le32, Bytes.Le64;
      ghost var ps := blockBuilder.added;
      LastOfFlat(blocks, ps);
      var ptr := EndBlock();
      if ptr.Some? && lastKey.Some? {
        IndexBlock(lastKey.value, ptr.value, ps);
      }
    }

    /** Adds the pair to the block in the making, and its key to the filter. */
    method PutPair(key: seq<byte>, value: seq<byte>)
      requires Building() && Filtered()
      modifies this`added, blockBuilder, filterBuilder, filterBuilder.filterBitsBuilder
      ensures Building() && Filtered() && added == old(added) + [Pair(key, value)] && LastKey(added) == Some(key)
    {
      ghost var p := Pair(key, value);
      filterBuilder.Add(key);
      blockBuilder.Add(key, value);
      KeysSnoc(added, p);
      AddedLast(Flat(blocks), old(blockBuilder.added), p);
      added := added + [p];
    }

    method AddRaw(key: seq<byte>, value: seq<byte>)
      requires Valid()
      modifies this`out, this`outOffset, this`blocks, this`added, blockBuilder, indexBuilder, filterBuilder, filterBuilder.filterBitsBuilder
      ensures Wrote() && Indexed() && Building() && Filtered() && added == old(added) + [Pair(key, value)] && LastKey(added) == Some(key)
      ensures blocks == if old(NeedFlush(key, value)) then old(Blocked()) else old(blocks)
    {
      hide BuiltOf, Encoded, Bytes.Le32, Bytes.Le64;
      if NeedFlush(key, value) {
        FinishBlock();
        NoRest(Flat(blocks));
      }
      PutPair(key, value);
    }

    /** One more pair; it begins a block when the current one has no room for it. */
    method Add(key: seq<byte>, value: seq<byte>)
      requires Valid()
      modifies this`out, this`outOffset, this`blocks, this`added, this`lastKey, blockBuilder, indexBuilder, filterBuilder, filterBuilder.filterBitsBuilder
      ensures Valid() && added == old(added) + [Pair(key, value)]
      ensures blocks == if old(NeedFlush(key, value)) then old(Blocked()) else old(blocks)
    {
      hide BuiltOf, Encoded, Bytes.Le32, Bytes.Le64;
      AddRaw(key, value);
      lastKey := Some(key);
    }

    method WriteToc(footer: Footer)
      modifies this`out, this`outOffset
      ensures out == old(out) + Framed(Toc(footer)) && outOffset == old(outOffset) + FOOTER
    {
      var toc := Le32(MAGIC);
      toc := toc + Le64(footer.index.offset);
      toc := toc + Le64(footer.index.length);
      if footer.filter.Some? {
        toc := toc + Le64(footer.filter.value.offset);
        toc := toc + Le64(footer.filter.value.length);
      } else {
        toc := toc + Le64(0);
        toc := toc + Le64(0);
      }
      var fp := FilterOf(footer);
      TocParts(Le32(MAGIC), Le64(footer.index.offset), Le64(footer.index.length), Le64(fp.offset), Le64(fp.length));
      var crc := Crc32(toc);
      toc := toc + Le32(crc);
      out := out + toc;
      outOffset := outOffset + |toc|;
    }

    /** Writes the filter, the index and the footer. */
    method WriteRest(filterBlock: seq<byte>)
      requires indexBuilder.Valid() && outOffset == |out|
      modifies this`out, this`outOffset, indexBuilder
      ensures
        var n := |old(out)|;
        var index := BlockBytes(old(indexBuilder.added), indexBuilder.restartInterval);
        var footer := Footer(ItemPointer(n + |filterBlock| + TRAILER, |index|), Some(ItemPointer(n, |filterBlock|)));
        && out == old(out) + Framed(filterBlock) + Framed(index) + Framed(Toc(footer))
        && outOffset == |out|
    {
      hide BuiltOf, Encoded, Bytes.Le32, Bytes.Le64;
      var filterPtr := WriteBlock(filterBlock);
      var indexBlock := indexBuilder.Seal();
      indexBuilder.Reset();
      var indexPtr := WriteBlock(indexBlock);
      WriteToc(Footer(indexPtr, Some(filterPtr)));
    }

    /** Writes the last block, and what follows the blocks. */
    method Finish() returns (ghost t: Table)
      requires Valid()
      modifies this`out, this`outOffset, this`blocks, blockBuilder, indexBuilder, filterBuilder.filterBitsBuilder
      ensures t.blocks == old(Blocked()) && t.interval == interval && Holds(t, added) && out == File(t)
      ensures StaysInside(t.filter) <==> filterBuilder.filterBitsBuilder.millibitsPerKey > 0 || added == []
    {
      hide BuiltOf, Encoded, Bytes.Le32, Bytes.Le64;
      FinishBlock();
      var filterBlock := filterBuilder.Seal();
      t := Table(blocks, interval, filterBlock);
      WriteRest(filterBlock);
    }
  }

  lemma TocParts(m: seq<byte>, a: seq<byte>, b: seq<byte>, c: seq<byte>, d: seq<byte>)
    ensures m + a + b + c + d == m + ((a + b) + (c + d))
  {
  }

  /** A table file built from pairs. With no bits for its keys the filter is too short to be asked. */
  method Build(pairs: seq<Pair>, blockSize: nat, restartInterval: nat, millibitsPerKey: nat) returns (file: seq<byte>, ghost t: Table)
    ensures Holds(t, pairs) && file == File(t) && t.interval == restartInterval
    ensures StaysInside(t.filter) <==> millibitsPerKey > 0 || pairs == []
  {
    hide BuiltOf, Encoded, Bytes.Le32, Bytes.Le64;
    var builder := new BlockTableBuilder(blockSize, restartInterval, millibitsPerKey);
    for i := 0 to |pairs|
      invariant fresh(builder) && fresh(builder.blockBuilder) && fresh(builder.indexBuilder)
      invariant fresh(builder.filterBuilder) && fresh(builder.filterBuilder.filterBitsBuilder)
      invariant builder.Valid() && builder.added == pairs[..i]
      invariant builder.filterBuilder.filterBitsBuilder.millibitsPerKey == millibitsPerKey
    {
      builder.Add(pairs[i].key, pairs[i].value);
      assert pairs[..i + 1] == pairs[..i] + [pairs[i]];
    }
    assert pairs[..|pairs|] == pairs;
    t := builder.Finish();
    file := builder.out;
  }
}

/** Opening a table file, looking a key up, and going through the pairs. */
module BlockTableReader {
  import opened Options
  import opened Bytes
  import opened DataBlock
  import opened DataBlockIterator
  import opened FilterBlock
  import opened BlockTable

  // ----- reading from the file -----

  /** What a read of a buffer's length gives: the buffer was zeros, and a short read is not noticed. */
  function ReadAt(f: seq<byte>, offset: nat, n: nat): (s: seq<byte>)
    ensures |s| == n
  {
    seq(n, i requires 0 <= i < n => if offset + i < |f| then f[offset + i] else 0)
  }

  lemma ReadHas(f: seq<byte>, offset: nat, s: seq<byte>)
    requires Has(f, offset, s) && s != []
    ensures ReadAt(f, offset, |s|) == s
  {
    HasSlice(f, offset, s);
    forall i | 0 <= i < |s| ensures ReadAt(f, offset, |s|)[i] == s[i] {
      assert f[offset..offset + |s|][i] == s[i];
    }
  }

  /** Its last four bytes have to be the checksum of the others. */
  function Checked(s: seq<byte>): Result<seq<byte>>
    requires |s| >= TRAILER
  {
    var n := |s| - TRAILER;
    if Crc32(s[..n]) != FromLe32(s[n..]) then Err(DataCorrupted) else Ok(s[..n])
  }

  lemma CheckedBack(buf: seq<byte>)
    ensures Checked(Framed(buf)) == Ok(buf)
  {
    Le32Back(Crc32(buf));
    assert Framed(buf)[..|buf|] == buf && Framed(buf)[|buf|..] == Le32(Crc32(buf));
  }

  function ReadBlock(f: seq<byte>, ptr: ItemPointer): Result<seq<byte>> {
    Checked(ReadAt(f, ptr.offset, ptr.length + TRAILER))
  }

  lemma BlockBack(f: seq<byte>, offset: nat, buf: seq<byte>)
    requires Has(f, offset, Framed(buf))
    ensures ReadBlock(f, ItemPointer(offset, |buf|)) == Ok(buf)
  {
    ReadHas(f, offset, Framed(buf));
    CheckedBack(buf);
  }

  function ReadFooter(f: seq<byte>): Result<Footer>
    requires |f| >= FOOTER
  {
    match Checked(ReadAt(f, |f| - FOOTER, FOOTER))
    case Err(e) => Err(e)
    case Ok(footer) =>
      if NumberAt(footer, 0) != MAGIC then Err(DataCorrupted)
      else
        var index := ItemPointer(LongAt(footer, 4), LongAt(footer, 12));
        var filter := ItemPointer(LongAt(footer, 20), LongAt(footer, 28));
        Ok(Footer(index, if filter.length > 0 then Some(filter) else None))
  }

  lemma PointerHas(s: seq<byte>, at: nat, p: ItemPointer)
    requires Has(s, at, PointerBytes(p)) && Narrow(p)
    ensures LongAt(s, at) == p.offset && LongAt(s, at + 8) == p.length
  {
    HasParts(s, at, Le64(p.offset), Le64(p.length));
    LongBack(s, at, p.offset);
    LongBack(s, at + 8, p.length);
  }

  lemma TocBack(footer: Footer)
    requires Narrow(footer.index) && Narrow(FilterOf(footer))
    ensures
      var s := Toc(footer);
      && NumberAt(s, 0) == MAGIC
      && ItemPointer(LongAt(s, 4), LongAt(s, 12)) == footer.index
      && ItemPointer(LongAt(s, 20), LongAt(s, 28)) == FilterOf(footer)
  {
    var s := Toc(footer);
    ThreeParts(s, Le32(MAGIC), PointerBytes(footer.index), PointerBytes(FilterOf(footer)));
    NumberBack(s, 0, MAGIC);
    PointerHas(s, 4, footer.index);
    PointerHas(s, 20, FilterOf(footer));
  }

  /** The footer comes back; a filter without bytes is none. */
  lemma FooterBack(f: seq<byte>, footer: Footer)
    requires |f| >= FOOTER && Has(f, |f| - FOOTER, Framed(Toc(footer)))
    requires Narrow(footer.index) && Narrow(FilterOf(footer))
    ensures ReadFooter(f) == Ok(Footer(footer.index, if FilterOf(footer).length > 0 then Some(FilterOf(footer)) else None))
  {
    ReadHas(f, |f| - FOOTER, Framed(Toc(footer)));
    CheckedBack(Toc(footer));
    TocBack(footer);
  }

  // ----- where the parts of a table are -----

  /** The file begins with the data of the blocks, and each of them fits the offsets of its restarts. */
  ghost predicate HasData(f: seq<byte>, bs: Blocks, interval: nat) {
    match bs
    case NoBlock => true
    case More(front, ps) =>
      HasData(f, front, interval) && Has(f, |Data(front, interval)|, Framed(BlockBytes(ps, interval)))
  }

  lemma {:induction false} DataHas(f: seq<byte>, bs: Blocks, interval: nat)
    requires Has(f, 0, Data(bs, interval))
    ensures HasData(f, bs, interval)
    decreases bs
  {
    hide BuiltOf, Encoded, Bytes.Le32, Bytes.Le64;
    match bs
    case NoBlock =>
    case More(front, ps) =>
      HasParts(f, 0, Data(front, interval), Framed(BlockBytes(ps, interval)));
      DataHas(f, front, interval);
  }

  /** The restarts' offsets fit 32 bits, and the pointers 64. */
  ghost predicate Fits(ps: seq<Pair>, interval: nat) {
    var b := BuiltOf(ps, interval);
    |Encoded(b.entries)| < 0x1_0000_0000 && |b.marks| < 0x1_0000_0000
  }

  ghost predicate AllFit(bs: Blocks, interval: nat) {
    match bs
    case NoBlock => true
    case More(front, ps) => AllFit(front, interval) && Fits(ps, interval)
  }

  ghost predicate TableFits(t: Table) {
    && AllFit(t.blocks, t.interval) && Fits(IndexPairs(t.blocks, t.interval), t.interval)
    && |File(t)| < 0x1_0000_0000_0000_0000
  }

  /** What the reader relies on. */
  ghost predicate Parts(f: seq<byte>, t: Table) {
    && |f| == |File(t)|
    && HasData(f, t.blocks, t.interval)
    && Has(f, FilterPointer(t).offset, Framed(t.filter))
    && Has(f, IndexPointer(t).offset, Framed(IndexBytes(t)))
    && Has(f, |f| - FOOTER, Framed(Toc(FooterOf(t))))
  }

  lemma FileParts(f: seq<byte>, a: seq<byte>, b: seq<byte>, c: seq<byte>, d: seq<byte>)
    requires f == a + b + c + d
    ensures Has(f, 0, a) && Has(f, |a|, b) && Has(f, |a| + |b|, c) && Has(f, |a| + |b| + |c|, d)
  {
    HasWhole(f, a + b + c, d);
    HasParts(f, 0, a + b, c);
    HasParts(f, 0, a, b);
  }

  lemma FileHasParts(t: Table)
    ensures Parts(File(t), t)
  {
    hide BuiltOf, Encoded, Bytes.Le32, Bytes.Le64;
    FileParts(File(t), Data(t.blocks, t.interval), Framed(t.filter), Framed(IndexBytes(t)), Framed(Toc(FooterOf(t))));
    DataHas(File(t), t.blocks, t.interval);
  }

  // ----- blocks by number -----

  function Count(bs: Blocks): nat {
    match bs
    case NoBlock => 0
    case More(front, _) => 1 + Count(front)
  }

  /** The blocks before number `i`. */
  function FrontOf(bs: Blocks, i: nat): (r: Blocks)
    requires i <= Count(bs)
    ensures Count(r) == i
  {
    if i == Count(bs) then bs else FrontOf(bs.front, i)
  }

  function BlockAt(bs: Blocks, i: nat): seq<Pair>
    requires i < Count(bs)
  {
    FrontOf(bs, i + 1).last
  }

  lemma {:induction false} BlockIs(t: Blocks, f: seq<byte>, interval: nat, i: nat)
    requires i < Count(t) && HasData(f, t, interval) && AllFit(t, interval) && NoneEmpty(t)
    ensures
      var front, ps := FrontOf(t, i), BlockAt(t, i);
      && FrontOf(t, i + 1) == More(front, ps) && ps != []
      && Has(f, |Data(front, interval)|, Framed(BlockBytes(ps, interval))) && Fits(ps, interval)
      && |Data(front, interval)| + |BlockBytes(ps, interval)| <= |Data(t, interval)|
    decreases t
  {
    hide BuiltOf, Encoded, Bytes.Le32, BlockBytes, Fits;
    if i + 1 < Count(t) { BlockIs(t.front, f, interval, i); }
  }

  lemma {:induction false} IndexAt(t: Blocks, interval: nat, i: nat)
    requires i < Count(t)
    ensures
      var front, ps := FrontOf(t, i), FrontOf(t, i + 1).last;
      && |IndexPairs(t, interval)| == Count(t)
      && IndexPairs(t, interval)[i] == Pair(LastIn(ps), PointerBytes(BlockPointer(front, ps, interval)))
    decreases t
  {
    IndexCount(t, interval);
    IndexCount(t.front, interval);
    if i + 1 < Count(t) { IndexAt(t.front, interval, i); }
  }

  lemma {:induction false} IndexCount(t: Blocks, interval: nat)
    ensures |IndexPairs(t, interval)| == Count(t)
    decreases t
  {
    match t
    case NoBlock =>
    case More(front, _) => IndexCount(front, interval);
  }

  /** The pairs before block `i` are a prefix of all, and the block's pairs follow. */
  lemma {:induction false} FlatAt(t: Blocks, i: nat)
    requires i < Count(t)
    ensures
      var base := |Flat(FrontOf(t, i))|;
      && |Flat(FrontOf(t, i + 1))| == base + |BlockAt(t, i)| <= |Flat(t)|
      && forall j :: 0 <= j < |BlockAt(t, i)| ==> Flat(t)[base + j] == BlockAt(t, i)[j]
    decreases t
  {
    if i + 1 < Count(t) {
      FlatAt(t.front, i);
    } else {
      assert FrontOf(t, i) == t.front;
    }
  }

  /** The block that has a pair. */
  lemma {:induction false} FlatFind(t: Blocks, k: nat) returns (i: nat, j: nat)
    requires k < |Flat(t)|
    ensures i < Count(t) && j < |BlockAt(t, i)| && k == |Flat(FrontOf(t, i))| + j && BlockAt(t, i)[j] == Flat(t)[k]
    decreases t
  {
    if k < |Flat(t.front)| {
      i, j := FlatFind(t.front, k);
    } else {
      i, j := Count(t.front), k - |Flat(t.front)|;
    }
  }

  // ----- order -----

  /** A strict total order in which the empty string comes first. */
  ghost predicate KeyOrder(less: Order) {
    && (forall a :: !less(a, a))
    && (forall a, b, c :: less(a, b) && less(b, c) ==> less(a, c))
    && (forall a, b :: a != b ==> less(a, b) || less(b, a))
    && (forall a :: a != [] ==> less([], a))
  }

  ghost predicate Ascending(ps: seq<Pair>, less: Order) {
    forall i, j :: 0 <= i < j < |ps| ==> less(ps[i].key, ps[j].key)
  }

  /** The order of byte strings, which is that of string keys. */
  predicate Lex(a: seq<byte>, b: seq<byte>) {
    b != [] && (a == [] || a[0] < b[0] || (a[0] == b[0] && Lex(a[1..], b[1..])))
  }

  lemma {:induction false} LexIrreflexive(a: seq<byte>)
    ensures !Lex(a, a)
  {
    if a != [] { LexIrreflexive(a[1..]); }
  }

  lemma {:induction false} LexTransitive(a: seq<byte>, b: seq<byte>, c: seq<byte>)
    requires Lex(a, b) && Lex(b, c)
    ensures Lex(a, c)
    decreases |a|
  {
    if a != [] && a[0] == b[0] && b[0] == c[0] { LexTransitive(a[1..], b[1..], c[1..]); }
  }

  lemma {:induction false} LexTotal(a: seq<byte>, b: seq<byte>)
    requires a != b
    ensures Lex(a, b) || Lex(b, a)
    decreases |a|
  {
    if a != [] && b != [] && a[0] == b[0] {
      assert a == [a[0]] + a[1..] && b == [b[0]] + b[1..];
      LexTotal(a[1..], b[1..]);
    }
  }

  lemma LexIsKeyOrder()
    ensures KeyOrder(Lex)
  {
    forall a ensures !Lex(a, a) { LexIrreflexive(a); }
    forall a, b, c | Lex(a, b) && Lex(b, c) ensures Lex(a, c) { LexTransitive(a, b, c); }
    forall a, b | a != b ensures Lex(a, b) || Lex(b, a) { LexTotal(a, b); }
  }

  // ----- looking up in a block -----

  /** The value that the pairs have for a key. */
  ghost predicate Answers(ps: seq<Pair>, key: seq<byte>, v: Option<seq<byte>>) {
    if v.Some? then Pair(key, v.value) in ps else Absent(ps, key)
  }

  ghost predicate Absent(ps: seq<Pair>, key: seq<byte>) {
    forall k :: 0 <= k < |ps| ==> ps[k].key != key
  }

  lemma BlockOfPairs(ps: seq<Pair>, interval: nat)
    requires Fits(ps, interval)
    ensures Block(BlockBytes(ps, interval), BuiltOf(ps, interval)) && Pairs(BuiltOf(ps, interval).entries) == ps
  {
    BuiltGood(ps, interval);
    ImageIsBlock(BuiltOf(ps, interval));
  }

  lemma AscendingSeeks(es: seq<Entry>, less: Order, key: seq<byte>)
    requires KeyOrder(less) && Ascending(Pairs(es), less)
    ensures Ascends(es, less, key)
  {
    forall i, j | 0 <= i < j < |es| && less(KeyOf(es[j]), key) ensures less(KeyOf(es[i]), key) {
      assert less(Pairs(es)[i].key, Pairs(es)[j].key);
    }
  }

  /** The bound is where the key is, if it is anywhere. */
  lemma BoundAnswers(es: seq<Entry>, less: Order, key: seq<byte>, n: nat)
    requires KeyOrder(less) && Ascending(Pairs(es), less) && IsBound(n, es, less, key)
    ensures if n < |es| && KeyOf(es[n]) == key then Pair(key, es[n].value) in Pairs(es) else Absent(Pairs(es), key)
  {
    var ps := Pairs(es);
    if n < |es| && KeyOf(es[n]) == key {
      assert ps[n] == Pair(key, es[n].value);
    } else {
      forall k | 0 <= k < |ps| ensures ps[k].key != key {
        if k < n {
          assert less(KeyOf(es[k]), key);
        } else if k > n {
          assert less(ps[n].key, ps[k].key);
        }
      }
    }
  }

  /** Seeks the key in a block. */
  method FindIn(contents: seq<byte>, less: Order, key: seq<byte>, ghost l: Built) returns (v: Option<seq<byte>>)
    requires Block(contents, l) && KeyOrder(less) && Ascending(Pairs(l.entries), less)
    ensures if key == [] then v == None else Answers(Pairs(l.entries), key, v)
  {
    hide Block, Encoded, KeyOrder;
    AscendingSeeks(l.entries, less, key);
    var blockIter := new DataBlockIterator(contents, less, l);
    ghost var n := blockIter.Seek(key);
    BoundAnswers(l.entries, less, key, n);
    var found := blockIter.Current();
    if found.Some? && found.value.key == key {
      v := Some(found.value.value);
    } else {
      v := None;
    }
  }

  // ----- looking up in the table -----

  lemma {:induction false} FrontsRise(t: Blocks, i: nat, j: nat)
    requires i <= j <= Count(t)
    ensures |Flat(FrontOf(t, i))| <= |Flat(FrontOf(t, j))| <= |Flat(t)|
    decreases t
  {
    if j < Count(t) {
      FrontsRise(t.front, i, j);
    } else if i < j {
      FrontsRise(t.front, i, j - 1);
    }
  }

  /** The last pair of a block. */
  lemma LastAt(t: Blocks, i: nat) returns (k: nat)
    requires i < Count(t) && BlockAt(t, i) != []
    ensures k + 1 == |Flat(FrontOf(t, i + 1))| <= |Flat(t)| && Flat(t)[k].key == LastIn(BlockAt(t, i))
  {
    FlatAt(t, i);
    k := |Flat(FrontOf(t, i + 1))| - 1;
    var j := |BlockAt(t, i)| - 1;
    assert Flat(t)[|Flat(FrontOf(t, i))| + j] == BlockAt(t, i)[j];
  }

  lemma {:induction false} NoneEmptyAt(t: Blocks, i: nat)
    requires NoneEmpty(t) && i < Count(t)
    ensures BlockAt(t, i) != []
    decreases t
  {
    if i + 1 < Count(t) { NoneEmptyAt(t.front, i); }
  }

  lemma LastsAscend(t: Blocks, less: Order, i: nat, j: nat)
    requires NoneEmpty(t) && Ascending(Flat(t), less) && i < j < Count(t)
    ensures less(LastIn(BlockAt(t, i)), LastIn(BlockAt(t, j)))
  {
    hide Flat, FrontOf;
    NoneEmptyAt(t, i);
    NoneEmptyAt(t, j);
    var k := LastAt(t, i);
    var k' := LastAt(t, j);
    FrontsRise(t, i + 1, j);
    FlatAt(t, j);
  }

  /** The index is in order. */
  lemma IndexAscends(t: Blocks, interval: nat, less: Order)
    requires NoneEmpty(t) && Ascending(Flat(t), less)
    ensures Ascending(IndexPairs(t, interval), less)
  {
    hide Flat, FrontOf, IndexPairs;
    IndexCount(t, interval);
    var ps := IndexPairs(t, interval);
    forall i, j | 0 <= i < j < |ps| ensures less(ps[i].key, ps[j].key) {
      IndexAt(t, interval, i);
      IndexAt(t, interval, j);
      LastsAscend(t, less, i, j);
    }
  }

  lemma BlockAscends(t: Blocks, less: Order, i: nat)
    requires Ascending(Flat(t), less) && i < Count(t)
    ensures Ascending(BlockAt(t, i), less)
  {
    hide Flat, FrontOf;
    FlatAt(t, i);
    var base := |Flat(FrontOf(t, i))|;
    forall j, j' | 0 <= j < j' < |BlockAt(t, i)| ensures less(BlockAt(t, i)[j].key, BlockAt(t, i)[j'].key) {
      assert Flat(t)[base + j] == BlockAt(t, i)[j] && Flat(t)[base + j'] == BlockAt(t, i)[j'];
    }
  }

  /** The first `n` blocks end before the key, and block `n` does not. */
  ghost predicate Located(t: Blocks, less: Order, key: seq<byte>, n: nat) {
    && n <= Count(t)
    && (forall i :: 0 <= i < n ==> less(LastIn(BlockAt(t, i)), key))
    && (n < Count(t) ==> !less(LastIn(BlockAt(t, n)), key))
  }

  /** A pair with the key is in the block where the index puts it. */
  lemma OnlyThere(t: Blocks, less: Order, key: seq<byte>, n: nat, k: nat)
    requires KeyOrder(less) && NoneEmpty(t) && Ascending(Flat(t), less) && Located(t, less, key, n)
    requires k < |Flat(t)|
    ensures Flat(t)[k].key == key ==> n < Count(t) && Flat(t)[k] in BlockAt(t, n)
  {
    hide Flat, FrontOf, IndexPairs;
    var i, j := FlatFind(t, k);
    if i < n {
      NoneEmptyAt(t, i);
      var last := LastAt(t, i);
      FlatAt(t, i);
      assert last == k || less(Flat(t)[k].key, Flat(t)[last].key);
    } else if i > n {
      NoneEmptyAt(t, n);
      var end := LastAt(t, n);
      FrontsRise(t, n + 1, i);
      assert less(Flat(t)[end].key, Flat(t)[k].key);
    }
  }

  lemma AbsentIn(ps: seq<Pair>, key: seq<byte>, p: Pair)
    requires Absent(ps, key) && p in ps
    ensures p.key != key
  {
  }

  /** What the block where the index puts the key answers is what the table answers. */
  lemma FoundAnswers(t: Blocks, less: Order, key: seq<byte>, n: nat, v: Option<seq<byte>>)
    requires KeyOrder(less) && NoneEmpty(t) && Ascending(Flat(t), less) && Located(t, less, key, n)
    requires if n < Count(t) then Answers(BlockAt(t, n), key, v) else v == None
    ensures Answers(Flat(t), key, v)
  {
    hide Flat, FrontOf, IndexPairs;
    if v.Some? {
      FlatAt(t, n);
      var j :| 0 <= j < |BlockAt(t, n)| && BlockAt(t, n)[j] == Pair(key, v.value);
      assert Flat(t)[|Flat(FrontOf(t, n))| + j] == Pair(key, v.value);
    } else {
      forall k | 0 <= k < |Flat(t)| ensures Flat(t)[k].key != key {
        OnlyThere(t, less, key, n, k);
        if n < Count(t) && Flat(t)[k] in BlockAt(t, n) { AbsentIn(BlockAt(t, n), key, Flat(t)[k]); }
      }
    }
  }

  // ----- the reader -----

  datatype Loaded = Loaded(index: seq<byte>, filter: Option<seq<byte>>)

  /** Opening reads the footer and the blocks that it points to. */
  function OpenFile(f: seq<byte>): Result<Loaded>
    requires |f| >= FOOTER
  {
    match ReadFooter(f)
    case Err(e) => Err(e)
    case Ok(footer) =>
      match ReadBlock(f, footer.index)
      case Err(e) => Err(e)
      case Ok(index) =>
        if footer.filter == None then Ok(Loaded(index, None))
        else
          match ReadBlock(f, footer.filter.value)
          case Err(e) => Err(e)
          case Ok(filter) => Ok(Loaded(index, Some(filter)))
  }

  lemma OpenBack(f: seq<byte>, t: Table)
    requires Parts(f, t) && TableFits(t)
    ensures |f| >= FOOTER && OpenFile(f) == Ok(Loaded(IndexBytes(t), if t.filter == [] then None else Some(t.filter)))
  {
    hide BuiltOf, Encoded, Bytes.Le32, Bytes.Le64, BlockBytes, ReadAt, Data, HasData, AllFit, Fits, Checked;
    FooterBack(f, FooterOf(t));
    BlockBack(f, IndexPointer(t).offset, IndexBytes(t));
    BlockBack(f, FilterPointer(t).offset, t.filter);
  }

  class BlockTableReader {
    const file: seq<byte>
    const less: Order
    const indexBlock: seq<byte>
    const filterReader: Option<FullFilterBlockReader>
    ghost const table: Table

    ghost predicate Valid() {
      && Parts(file, table) && TableFits(table) && NoneEmpty(table.blocks)
      && FilterFor(table.filter, Keys(Flat(table.blocks)))
      && indexBlock == IndexBytes(table)
      && (if filterReader == None then table.filter == [] else filterReader.value.block == table.filter != [])
    }

    constructor (file: seq<byte>, less: Order, loaded: Loaded, ghost t: Table)
      requires Parts(file, t) && TableFits(t) && Holds(t, Flat(t.blocks))
      requires |file| >= FOOTER && OpenFile(file) == Ok(loaded)
      ensures Valid() && this.file == file && this.less == less && table == t
    {
      OpenBack(file, t);
      this.file, this.less, indexBlock := file, less, loaded.index;
      table := t;
      if loaded.filter.Some? {
        var reader := new FullFilterBlockReader(loaded.filter.value);
        filterReader := Some(reader);
      } else {
        filterReader := None;
      }
    }

    lemma IndexIsBlock()
      requires Valid()
      ensures
        var ps := IndexPairs(table.blocks, table.interval);
        && Block(indexBlock, BuiltOf(ps, table.interval)) && Pairs(BuiltOf(ps, table.interval).entries) == ps
    {
      BlockOfPairs(IndexPairs(table.blocks, table.interval), table.interval);
    }

    /** What an entry of the index points to. */
    lemma EntryPoints(i: nat)
      requires Valid() && i < Count(table.blocks)
      ensures
        var ps := BlockAt(table.blocks, i);
        var p := IndexPairs(table.blocks, table.interval);
        && i < |p| && p[i].key == LastIn(ps) && ps != [] && Fits(ps, table.interval)
        && ReadBlock(file, PointerOf(p[i].value)) == Ok(BlockBytes(ps, table.interval))
    {
      hide BuiltOf, Encoded, Bytes.Le32, Bytes.Le64, BlockBytes, ReadAt, Data, HasData, AllFit, Fits, IndexPairs;
      var front, ps := FrontOf(table.blocks, i), BlockAt(table.blocks, i);
      BlockIs(table.blocks, file, table.interval, i);
      IndexAt(table.blocks, table.interval, i);
      PointerBack(BlockPointer(front, ps, table.interval));
      BlockBack(file, |Data(front, table.interval)|, BlockBytes(ps, table.interval));
    }

    /** Asks the filter. */
    method MayHave(key: seq<byte>, vector: bool) returns (r: bool)
      requires Valid() && StaysInside(table.filter)
      ensures !r ==> Absent(Flat(table.blocks), key)
    {
      r := true;
      if filterReader.Some? {
        ghost var keys := Keys(Flat(table.blocks));
        r := filterReader.value.KeyMayMatch(key, vector, keys);
        if !r {
          forall k | 0 <= k < |Flat(table.blocks)| ensures Flat(table.blocks)[k].key != key {
            assert keys[k] == Flat(table.blocks)[k].key;
          }
        }
      }
    }

    /** The block that the key is in, if it is in any. */
    method FindBlock(key: seq<byte>) returns (ptr: Option<ItemPointer>, ghost n: nat)
      requires Valid() && KeyOrder(less) && Ascending(Flat(table.blocks), less)
      ensures Located(table.blocks, less, key, n)
      ensures ptr == None ==> n == Count(table.blocks) || key == []
      ensures ptr.Some? ==>
        && n < Count(table.blocks)
        && ReadBlock(file, ptr.value) == Ok(BlockBytes(BlockAt(table.blocks, n), table.interval))
    {
      hide BuiltOf, Encoded, Block, BlockBytes, ReadBlock, Data, HasData, AllFit, Fits, IndexPairs, Flat, FrontOf;
      IndexIsBlock();
      ghost var l := BuiltOf(IndexPairs(table.blocks, table.interval), table.interval);
      IndexAscends(table.blocks, table.interval, less);
      AscendingSeeks(l.entries, less, key);
      IndexCount(table.blocks, table.interval);
      var indexIter := new DataBlockIterator(indexBlock, less, l);
      n := indexIter.Seek(key);
      Locates(l.entries, key, n);
      var found := indexIter.Current();
      if n < Count(table.blocks) { EntryPoints(n); }
      ptr := None;
      if found.Some? && (key == found.value.key || less(key, found.value.key)) {
        ptr := Some(PointerOf(found.value.value));
      }
    }

    lemma Locates(es: seq<Entry>, key: seq<byte>, n: nat)
      requires Valid() && Pairs(es) == IndexPairs(table.blocks, table.interval) && IsBound(n, es, less, key)
      ensures Located(table.blocks, less, key, n)
    {
      IndexCount(table.blocks, table.interval);
      forall i | 0 <= i < |es| ensures KeyOf(es[i]) == LastIn(BlockAt(table.blocks, i)) {
        IndexAt(table.blocks, table.interval, i);
        assert Pairs(es)[i].key == KeyOf(es[i]);
      }
    }

    /** The table answers as the pairs do that it was built from, except for the empty key, which it never finds. */
    method Get(key: seq<byte>, vector: bool) returns (r: Result<Option<seq<byte>>>)
      requires Valid() && StaysInside(table.filter) && KeyOrder(less) && Ascending(Flat(table.blocks), less)
      ensures r.Ok?
      ensures if key == [] then r.value == None else Answers(Flat(table.blocks), key, r.value)
    {
      hide BuiltOf, Encoded, Block, BlockBytes, ReadBlock, Data, HasData, AllFit, Fits, IndexPairs, Flat, FrontOf, Located;
      var may := MayHave(key, vector);
      if !may { return Ok(None); }
      var ptr, n := FindBlock(key);
      if ptr == None {
        if key != [] { FoundAnswers(table.blocks, less, key, n, None); }
        return Ok(None);
      }
      match ReadBlock(file, ptr.value)
      case Err(e) => return Err(e);
      case Ok(block) =>
        ghost var ps := BlockAt(table.blocks, n);
        EntryPoints(n);
        BlockOfPairs(ps, table.interval);
        BlockAscends(table.blocks, less, n);
        var v := FindIn(block, less, key, BuiltOf(ps, table.interval));
        if key != [] { FoundAnswers(table.blocks, less, key, n, v); }
        return Ok(v);
    }
  }

  // ----- going through the table -----

  class BlockTableIterator {
    const table: BlockTableReader
    const indexIter: DataBlockIterator
    var blockIter: DataBlockIterator?

    /** Which block the iterator is in, and where: `blocks` of them are taken from the index. */
    ghost predicate Valid()
      reads this, indexIter, blockIter
    {
      && table.Valid() && indexIter.Valid() && indexIter.Ready()
      && indexIter.contents == table.indexBlock && indexIter.layout == IndexLayout()
      && if blockIter == null then indexIter.pos == 0
         else
           && blockIter != indexIter && indexIter.pos > 0 && indexIter.pos <= Count(table.table.blocks)
           && blockIter.Valid() && blockIter.Ready()
           && blockIter.layout == BlockLayout(indexIter.pos - 1)
    }

    ghost function IndexLayout(): Built {
      BuiltOf(IndexPairs(table.table.blocks, table.table.interval), table.table.interval)
    }

    ghost function BlockLayout(i: nat): Built
      requires i < Count(table.table.blocks)
    {
      BuiltOf(BlockAt(table.table.blocks, i), table.table.interval)
    }

    /** How many pairs have been returned. */
    ghost function Done(): nat
      requires Valid()
      reads this, indexIter, blockIter
    {
      if blockIter == null then 0
      else |Flat(FrontOf(table.table.blocks, indexIter.pos - 1))| + blockIter.pos
    }

    constructor (table: BlockTableReader)
      requires table.Valid()
      ensures Valid() && Done() == 0 && this.table == table && fresh(indexIter) && blockIter == null
    {
      hide BuiltOf, Encoded, Block, Parts, TableFits, IndexPairs, Flat;
      table.IndexIsBlock();
      this.table := table;
      indexIter := new DataBlockIterator(table.indexBlock, table.less,
        BuiltOf(IndexPairs(table.table.blocks, table.table.interval), table.table.interval));
      blockIter := null;
    }

    /** Loads the block of the next entry of the index; at the end the index starts again. */
    method GetNextBlock() returns (r: Result<bool>)
      requires table.Valid() && indexIter.Valid() && indexIter.Ready()
      requires indexIter.contents == table.indexBlock && indexIter.layout == IndexLayout()
      requires blockIter == null
      modifies this, indexIter
      ensures Valid() && (blockIter != null ==> fresh(blockIter))
      ensures
        var i := old(indexIter.pos);
        && i <= Count(table.table.blocks)
        && r == Ok(i < Count(table.table.blocks))
        && indexIter.pos == (if i < Count(table.table.blocks) then i + 1 else 0)
        && (i < Count(table.table.blocks) ==> blockIter != null && blockIter.pos == 0)
        && (i == Count(table.table.blocks) ==> blockIter == null)
    {
      hide BuiltOf, Encoded, Block, Parts, TableFits, IndexPairs, Flat, ReadBlock;
      table.IndexIsBlock();
      IndexCount(table.table.blocks, table.table.interval);
      ghost var i := indexIter.pos;
      var entry := indexIter.Next();
      if entry == None { return Ok(false); }
      table.EntryPoints(i);
      BlockOfPairs(BlockAt(table.table.blocks, i), table.table.interval);
      match ReadBlock(table.file, PointerOf(entry.value.value))
      case Err(e) => return Err(e);
      case Ok(block) =>
        blockIter := new DataBlockIterator(block, table.less, BlockLayout(i));
        return Ok(true);
    }

    /** The block that a valid iterator is in, in the pairs of the table. */
    lemma BlockPairs()
      requires Valid() && blockIter != null
      ensures
        var i := indexIter.pos - 1;
        var es, all := blockIter.layout.entries, Flat(table.table.blocks);
        && 0 < |es| == |BlockAt(table.table.blocks, i)|
        && |Flat(FrontOf(table.table.blocks, i + 1))| == |Flat(FrontOf(table.table.blocks, i))| + |es| <= |all|
        && forall j :: 0 <= j < |es| ==> all[|Flat(FrontOf(table.table.blocks, i))| + j] == PairOf(es[j])
    {
      hide BuiltOf, Encoded, Block, Parts, TableFits, IndexPairs, Flat, FrontOf;
      var i := indexIter.pos - 1;
      BuiltGood(BlockAt(table.table.blocks, i), table.table.interval);
      FlatAt(table.table.blocks, i);
      NoneEmptyAt(table.table.blocks, i);
      var es, base := blockIter.layout.entries, |Flat(FrontOf(table.table.blocks, i))|;
      forall j | 0 <= j < |es| ensures Flat(table.table.blocks)[base + j] == PairOf(es[j]) {
        assert Pairs(es)[j] == PairOf(es[j]);
      }
    }

    /** The next pair of the block, or none if the block is through. */
    method NextInBlock() returns (r: Option<Pair>)
      requires Valid() && blockIter != null
      modifies blockIter
      ensures Valid()
      ensures r.Some? ==>
        && old(Done()) < |Flat(table.table.blocks)|
        && r.value == Flat(table.table.blocks)[old(Done())] && Done() == old(Done()) + 1
      ensures r == None ==> old(Done()) == |Flat(FrontOf(table.table.blocks, indexIter.pos))| <= |Flat(table.table.blocks)|
    {
      hide BuiltOf, Encoded, Block, Parts, TableFits, IndexPairs, Flat, FrontOf;
      BlockPairs();
      r := blockIter.Next();
    }

    /** The next pair; after the last one there is none, and then the first one again. */
    method Next() returns (r: Result<Option<Pair>>)
      requires Valid()
      modifies this, indexIter, blockIter
      ensures Valid() && (blockIter == null || blockIter == old(blockIter) || fresh(blockIter))
      ensures
        var all := Flat(table.table.blocks);
        if old(Done()) < |all| then r == Ok(Some(all[old(Done())])) && Done() == old(Done()) + 1
        else r == Ok(None) && Done() == 0
      decreases Count(table.table.blocks) - indexIter.pos, 1
    {
      hide BuiltOf, Encoded, Block, Parts, TableFits, IndexPairs, Flat, FrontOf;
      if blockIter == null {
        FrontEnds(table.table.blocks);
        r := NextBlock();
        return;
      }
      var pair := NextInBlock();
      if pair.Some? {
        return Ok(pair);
      }
      blockIter := null;
      r := NextBlock();
    }

    /** Goes on with the next block of the index. */
    method NextBlock() returns (r: Result<Option<Pair>>)
      requires table.Valid() && indexIter.Valid() && indexIter.Ready()
      requires indexIter.contents == table.indexBlock && indexIter.layout == IndexLayout()
      requires blockIter == null
      modifies this, indexIter
      ensures Valid() && (blockIter == null || fresh(blockIter))
      ensures old(indexIter.pos) <= Count(table.table.blocks)
      ensures
        var all, done := Flat(table.table.blocks), |Flat(FrontOf(table.table.blocks, old(indexIter.pos)))|;
        if done < |all| then r == Ok(Some(all[done])) && Done() == done + 1
        else r == Ok(None) && Done() == 0
      decreases Count(table.table.blocks) - indexIter.pos, 0
    {
      hide BuiltOf, Encoded, Block, Parts, TableFits, IndexPairs, Flat, FrontOf;
      FrontEnds(table.table.blocks);
      var more := GetNextBlock();
      match more
      case Err(e) => return Err(e);
      case Ok(loaded) =>
        if !loaded { return Ok(None); }
        BlockPairs();
        r := Next();
    }
  }

  lemma {:induction false} FrontEnds(t: Blocks)
    ensures FrontOf(t, Count(t)) == t && Flat(FrontOf(t, 0)) == []
    decreases t
  {
    match t
    case NoBlock =>
    case More(front, _) => FrontEnds(front);
  }

  // ----- a table file, read back -----

  method Open(file: seq<byte>, less: Order, ghost t: Table) returns (r: Result<BlockTableReader>)
    requires Parts(file, t) && TableFits(t) && Holds(t, Flat(t.blocks))
    ensures r.Ok? && r.value.Valid() && r.value.less == less && r.value.table == t
  {
    OpenBack(file, t);
    match OpenFile(file)
    case Err(e) => return Err(e);
    case Ok(loaded) =>
      var reader := new BlockTableReader(file, less, loaded, t);
      return Ok(reader);
  }

  /** A table built from ascending pairs answers every key as the pairs do, except for the empty one. */
  method LookUp(file: seq<byte>, less: Order, key: seq<byte>, vector: bool, ghost t: Table, ghost pairs: seq<Pair>) returns (v: Result<Option<seq<byte>>>)
    requires file == File(t) && Holds(t, pairs) && TableFits(t) && StaysInside(t.filter)
    requires KeyOrder(less) && Ascending(pairs, less)
    ensures v.Ok? && (Answers(pairs, key, v.value) <==> key != [] || Absent(pairs, key))
  {
    hide File, Parts, KeyOrder, Ascending;
    FileHasParts(t);
    var reader := Open(file, less, t);
    match reader
    case Err(e) => return Err(e);
    case Ok(table) => v := table.Get(key, vector);
  }

  method Drain(table: BlockTableReader) returns (r: Result<seq<Pair>>)
    requires table.Valid()
    ensures r == Ok(Flat(table.table.blocks))
  {
    hide Flat, BlockTableReader.Valid, BlockTableIterator.Valid;
    var it := new BlockTableIterator(table);
    var ps: seq<Pair> := [];
    ghost var all := Flat(table.table.blocks);
    while true
      invariant fresh(it) && fresh(it.indexIter) && (it.blockIter != null ==> fresh(it.blockIter))
      invariant it.table == table && it.Valid() && it.Done() == |ps| <= |all|
      invariant forall k :: 0 <= k < |ps| ==> ps[k] == all[k]
      decreases |all| - |ps|
    {
      var next := it.Next();
      match next
      case Err(e) => return Err(e);
      case Ok(pair) =>
        if pair == None {
          assert ps == all;
          return Ok(ps);
        }
        ps := ps + [pair.value];
    }
  }

  /** Going through a table gives the pairs it was built from, in that order. */
  method Scan(file: seq<byte>, less: Order, ghost t: Table, ghost pairs: seq<Pair>) returns (r: Result<seq<Pair>>)
    requires file == File(t) && Holds(t, pairs) && TableFits(t)
    ensures r == Ok(pairs)
  {
    hide File, Parts, TableFits;
    FileHasParts(t);
    var reader := Open(file, less, t);
    match reader
    case Err(e) => return Err(e);
    case Ok(table) => r := Drain(table);
  }
}

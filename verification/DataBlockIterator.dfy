/** Going through a sealed block, and seeking in it. */
module DataBlockIterator {
  import opened Options
  import opened Bytes
  import opened DataBlock
  import Varint

  type Order = (seq<byte>, seq<byte>) -> bool

  /** The parts of a block: entries, the offsets of the restarts, and their number. */
  ghost predicate Block(contents: seq<byte>, l: Built) {
    var n := |Encoded(l.entries)|;
    && Good(l) && |contents| == n + 4 * |l.marks| + 4
    && Has(contents, 0, Encoded(l.entries))
    && (forall j :: 0 <= j < |l.marks| ==> RestartAt(contents, n, l, j))
    && NumberAt(contents, |contents| - 4) == |l.marks|
  }

  ghost predicate RestartAt(contents: seq<byte>, n: nat, l: Built, j: nat)
    requires j < |l.marks|
  {
    && (l.marks[j] < |l.entries| || j == 0) && l.marks[j] <= |l.entries|
    && NumberAt(contents, n + 4 * j) == Start(l.entries, l.marks[j])
  }

  // ----- what the bytes hold -----

  /** The lengths at the head of an entry. */
  datatype Head = Head(shared: nat, nonShared: nat, valueLen: nat, len: nat)

  function HeadAt(f: seq<byte>, p: nat): Head {
    var a := Varint.Decode(f, p);
    var b := Varint.Decode(f, p + a.len);
    var c := Varint.Decode(f, p + a.len + b.len);
    Head(a.value, b.value, c.value, a.len + b.len + c.len)
  }

  /** The tail and the value after the head. */
  ghost predicate EntryAt(f: seq<byte>, p: nat, e: Entry) {
    var h := HeadAt(f, p);
    && h.shared == |e.prefix| && h.nonShared == |e.tail| && h.valueLen == |e.value|
    && h.len > 0 && h.len + |e.tail| + |e.value| == |EntryBytes(e)|
    && p + |EntryBytes(e)| <= |f|
    && f[p + h.len..p + h.len + |e.tail|] == e.tail
    && f[p + h.len + |e.tail|..p + |EntryBytes(e)|] == e.value
  }

  lemma FourParts(f: seq<byte>, p: nat, a: seq<byte>, b: seq<byte>, c: seq<byte>, d: seq<byte>)
    requires Has(f, p, a + (b + (c + d)))
    ensures Has(f, p, a) && Has(f, p + |a|, b) && Has(f, p + |a| + |b|, c) && Has(f, p + |a| + |b| + |c|, d)
    ensures |a + (b + (c + d))| == |a| + |b| + |c| + |d|
  {
    HasParts(f, p, a, b + (c + d));
    HasParts(f, p + |a|, b, c + d);
    HasParts(f, p + |a| + |b|, c, d);
  }

  lemma HeadBack(f: seq<byte>, p: nat, e: Entry)
    requires Has(f, p, EntryBytes(e))
    ensures
      var n := |Varint.Encode(|e.prefix|)| + |Varint.Encode(|e.tail|)| + |Varint.Encode(|e.value|)|;
      && HeadAt(f, p) == Head(|e.prefix|, |e.tail|, |e.value|, n)
      && n > 0 && n + |e.tail| + |e.value| == |EntryBytes(e)|
      && Has(f, p + n, e.tail + e.value)
  {
    var a, b, c := Varint.Encode(|e.prefix|), Varint.Encode(|e.tail|), Varint.Encode(|e.value|);
    FourParts(f, p, a, b, c, e.tail + e.value);
    Varint.DecodeBack(f, p, |e.prefix|);
    Varint.DecodeBack(f, p + |a|, |e.tail|);
    Varint.DecodeBack(f, p + |a| + |b|, |e.value|);
  }

  lemma TailBack(f: seq<byte>, q: nat, tail: seq<byte>, value: seq<byte>)
    requires Has(f, q, tail + value) && q + |tail| + |value| <= |f|
    ensures f[q..q + |tail|] == tail && f[q + |tail|..q + |tail| + |value|] == value
  {
    HasParts(f, q, tail, value);
    HasIs(f, q, tail);
    HasIs(f, q + |tail|, value);
  }

  lemma EntryBack(f: seq<byte>, p: nat, e: Entry)
    requires Has(f, p, EntryBytes(e))
    ensures EntryAt(f, p, e)
  {
    HeadBack(f, p, e);
    HasLength(f, p, EntryBytes(e));
    TailBack(f, p + HeadAt(f, p).len, e.tail, e.value);
  }

  lemma {:induction false} HasEntry(f: seq<byte>, es: seq<Entry>, i: nat)
    requires Has(f, 0, Encoded(es)) && i < |es|
    ensures Has(f, Start(es, i), EntryBytes(es[i]))
    decreases |es|
  {
    var n := |es| - 1;
    HasParts(f, 0, Encoded(es[..n]), EntryBytes(es[n]));
    if i < n {
      HasEntry(f, es[..n], i);
      assert es[..n][..i] == es[..i];
    }
  }

  lemma {:induction false} HasNumber(f: seq<byte>, p: nat, ns: seq<nat>, j: nat)
    requires Has(f, p, Le32s(ns)) && j < |ns|
    ensures Has(f, p + 4 * j, Le32(ns[j]))
    decreases |ns|
  {
    var n := |ns| - 1;
    HasParts(f, p, Le32s(ns[..n]), Le32(ns[n]));
    if j < n { HasNumber(f, p, ns[..n], j); }
  }

  lemma StartBelow(es: seq<Entry>, i: nat)
    requires i <= |es|
    ensures Start(es, i) <= |Encoded(es)|
  {
    if i < |es| {
      StartNext(es, i);
      StartInside(es, i);
    } else {
      StartEnds(es);
    }
  }

  lemma RestartBack(f: seq<byte>, l: Built, j: nat)
    requires Good(l) && |Encoded(l.entries)| < 0x1_0000_0000
    requires j < |l.marks| && Has(f, |Encoded(l.entries)|, Le32s(l.restarts))
    ensures RestartAt(f, |Encoded(l.entries)|, l, j)
  {
    assert Restart(l.entries, l.marks[j]);
    HasNumber(f, |Encoded(l.entries)|, l.restarts, j);
    StartBelow(l.entries, l.marks[j]);
    NumberBack(f, |Encoded(l.entries)| + 4 * j, Start(l.entries, l.marks[j]));
  }

  /** A sealed block is one, when its offsets fit 32 bits. */
  lemma ImageIsBlock(l: Built)
    requires Good(l) && |Encoded(l.entries)| < 0x1_0000_0000 && |l.marks| < 0x1_0000_0000
    ensures Block(Image(l), l)
  {
    ThreeParts(Image(l), Encoded(l.entries), Le32s(l.restarts), Le32(|l.restarts|));
    NumberBack(Image(l), |Encoded(l.entries)| + 4 * |l.marks|, |l.marks|);
    forall j | 0 <= j < |l.marks| ensures RestartAt(Image(l), |Encoded(l.entries)|, l, j) {
      RestartBack(Image(l), l, j);
    }
  }

  lemma BlockEntry(contents: seq<byte>, l: Built, i: nat)
    requires Block(contents, l) && i < |l.entries|
    ensures EntryAt(contents, Start(l.entries, i), l.entries[i])
    ensures Start(l.entries, i + 1) == Start(l.entries, i) + |EntryBytes(l.entries[i])| <= |Encoded(l.entries)|
  {
    HasEntry(contents, l.entries, i);
    EntryBack(contents, Start(l.entries, i), l.entries[i]);
    StartNext(l.entries, i);
    StartInside(l.entries, i);
  }

  // ----- order -----

  /** Keys from some point on are not less than the target, and those before it are. */
  ghost predicate Ascends(es: seq<Entry>, less: Order, target: seq<byte>) {
    forall i, j :: 0 <= i < j < |es| && less(KeyOf(es[j]), target) ==> less(KeyOf(es[i]), target)
  }

  /** The number of the entries that are less than the target. */
  ghost predicate IsBound(n: nat, es: seq<Entry>, less: Order, target: seq<byte>) {
    && n <= |es|
    && (forall i :: 0 <= i < n ==> less(KeyOf(es[i]), target))
    && (n < |es| ==> !less(KeyOf(es[n]), target))
  }

  /** The key before, cut to the prefix, with the tail. */
  lemma KeyBuilt(e: Entry, key: seq<byte>, tail: seq<byte>)
    requires e.prefix <= key && tail == e.tail
    ensures |e.prefix| <= |key| && key[..|e.prefix|] + tail == KeyOf(e)
  {
  }

  class DataBlockIterator {
    const contents: seq<byte>
    const less: Order
    var offset: nat
    var valueOffset: nat
    const restartsOffset: nat
    var restartKey: seq<byte>
    ghost const layout: Built
    ghost var pos: nat // entries passed

    ghost predicate Valid() {
      Block(contents, layout) && restartsOffset == |Encoded(layout.entries)|
    }

    /** Before entry `pos`, with what it needs of the key before it. */
    ghost predicate Ready()
      reads this
    {
      && pos <= |layout.entries| && offset == Start(layout.entries, pos)
      && (pos < |layout.entries| ==> layout.entries[pos].prefix <= restartKey)
    }

    /** Behind entry `i`, with its key and its value. */
    ghost predicate On(i: nat)
      reads this
    {
      && i < |layout.entries| && pos == i + 1
      && restartKey == KeyOf(layout.entries[i])
      && offset == Start(layout.entries, i + 1) && offset <= restartsOffset
      && 0 < valueOffset <= offset <= |contents|
      && contents[valueOffset..offset] == layout.entries[i].value
    }

    ghost predicate AtStart()
      reads this
    {
      pos == 0 && offset == 0 && valueOffset == 0 && restartKey == []
    }

    constructor (contents: seq<byte>, less: Order, ghost l: Built)
      requires Block(contents, l)
      ensures Valid() && Ready() && AtStart() && layout == l && this.contents == contents && this.less == less
    {
      this.contents, this.less := contents, less;
      offset, valueOffset, restartKey := 0, 0, [];
      restartsOffset := |contents| - NumberAt(contents, |contents| - 4) * 4 - 4;
      layout, pos := l, 0;
      new;
      ReadyAtStart();
    }

    lemma ReadyAtStart()
      requires Valid() && AtStart()
      ensures Ready()
    {
      StartEnds(layout.entries);
      if layout.entries != [] { assert LinkedAt(layout.entries, 0); }
    }

    /** Behind an entry, the next one finds its prefix. */
    lemma ReadyOn(i: nat)
      requires Valid() && On(i)
      ensures Ready()
    {
      if pos < |layout.entries| { assert LinkedAt(layout.entries, pos); }
    }

    function NumRestarts(): nat
      requires |contents| >= 4
    {
      NumberAt(contents, |contents| - 4)
    }

    function RestartOffset(index: nat): nat {
      NumberAt(contents, restartsOffset + 4 * index)
    }

    method Reset()
      requires Valid()
      modifies this
      ensures Valid() && Ready() && AtStart()
    {
      offset, valueOffset, restartKey := 0, 0, [];
      pos := 0;
      ReadyAtStart();
    }

    /** Reads the lengths of an entry and moves behind it. */
    method NextEntry() returns (h: Head)
      modifies this`offset, this`valueOffset
      ensures h == HeadAt(contents, old(offset))
      ensures valueOffset == old(offset) + h.len + h.nonShared && offset == valueOffset + h.valueLen
    {
      var headerLen := 0;
      var shared := Varint.Decode(contents, offset);
      headerLen := headerLen + shared.len;
      var nonShared := Varint.Decode(contents, offset + headerLen);
      headerLen := headerLen + nonShared.len;
      var valueLen := Varint.Decode(contents, offset + headerLen);
      headerLen := headerLen + valueLen.len;
      valueOffset := offset + headerLen + nonShared.value;
      offset := valueOffset + valueLen.value;
      h := Head(shared.value, nonShared.value, valueLen.value, headerLen);
    }

    method AssembleKey(keyOffset: nat, shared: nat, nonShared: nat)
      requires keyOffset + nonShared <= |contents|
      modifies this`restartKey
      ensures restartKey == (if shared <= |old(restartKey)| then old(restartKey)[..shared] else old(restartKey)) + contents[keyOffset..keyOffset + nonShared]
    {
      if shared < |restartKey| { restartKey := restartKey[..shared]; }
      restartKey := restartKey + contents[keyOffset..keyOffset + nonShared];
    }

    /** Reads the entry at the offset. */
    method Take(ghost e: Entry) returns (h: Head)
      requires EntryAt(contents, offset, e) && e.prefix <= restartKey
      modifies this`offset, this`valueOffset, this`restartKey
      ensures restartKey == KeyOf(e) && h.valueLen == |e.value|
      ensures 0 < valueOffset && valueOffset + h.valueLen == offset == old(offset) + |EntryBytes(e)| <= |contents|
      ensures contents[valueOffset..offset] == e.value
    {
      var currentOffset := offset;
      h := NextEntry();
      KeyBuilt(e, restartKey, contents[currentOffset + h.len..currentOffset + h.len + h.nonShared]);
      AssembleKey(currentOffset + h.len, h.shared, h.nonShared);
    }

    /** Reads entry `pos`. */
    method ReadEntry() returns (h: Head)
      requires Valid() && Ready() && pos < |layout.entries|
      modifies this
      ensures On(old(pos)) && valueOffset + h.valueLen == offset
    {
      BlockEntry(contents, layout, pos);
      h := Take(layout.entries[pos]);
      pos := pos + 1;
    }

    method Next() returns (r: Option<Pair>)
      requires Valid() && Ready()
      modifies this
      ensures Valid() && Ready()
      ensures old(pos) < |layout.entries| ==> On(old(pos)) && r == Some(PairOf(layout.entries[old(pos)]))
      ensures old(pos) == |layout.entries| ==> AtStart() && r == None
    {
      EndIs();
      if offset >= restartsOffset {
        Reset();
        return None;
      }
      ghost var i := pos;
      var h := ReadEntry();
      ReadyOn(i);
      var value := contents[valueOffset..valueOffset + h.valueLen];
      return Some(Pair(restartKey, value));
    }

    lemma EndIs()
      requires Valid() && Ready()
      ensures offset >= restartsOffset <==> pos == |layout.entries|
    {
      if pos < |layout.entries| {
        BlockEntry(contents, layout, pos);
      } else {
        StartEnds(layout.entries);
      }
    }

    method SeekToRestart(index: nat)
      requires Valid() && index < |layout.marks| && layout.marks[index] < |layout.entries|
      modifies this
      ensures Valid() && On(layout.marks[index])
    {
      assert RestartAt(contents, restartsOffset, layout, index);
      offset := RestartOffset(index);
      pos := layout.marks[index];
      assert Restart(layout.entries, pos);
      var h := ReadEntry();
    }

    /** The restart's key is less than the target. */
    ghost predicate LessAt(j: nat, target: seq<byte>) {
      && j < |layout.marks| && layout.marks[j] < |layout.entries|
      && less(KeyOf(layout.entries[layout.marks[j]]), target)
    }

    /** The last restart whose key is less than the target, or the first restart. */
    method FindRestart(target: seq<byte>) returns (low: nat)
      requires Valid() && Ascends(layout.entries, less, target)
      modifies this
      ensures low < |layout.marks| && (low == 0 || LessAt(low, target))
      ensures forall j :: low < j < |layout.marks| ==> !LessAt(j, target)
    {
      low := 0;
      var high := if NumRestarts() > 0 then NumRestarts() - 1 else 0;
      while low < high
        invariant low <= high < |layout.marks|
        invariant low == 0 || LessAt(low, target)
        invariant forall j :: high < j < |layout.marks| ==> !LessAt(j, target)
      {
        var mid: nat := (low + high + 1) / 2;
        assert RestartAt(contents, restartsOffset, layout, mid);
        SeekToRestart(mid);
        if !less(restartKey, target) {
          forall j | mid <= j < |layout.marks| ensures LessAt(j, target) ==> LessAt(mid, target) {
            Earlier(mid, j, target);
          }
          high := mid - 1;
        } else {
          low := mid;
        }
      }
    }

    lemma Earlier(i: nat, j: nat, target: seq<byte>)
      requires Valid() && Ascends(layout.entries, less, target) && i <= j < |layout.marks|
      ensures LessAt(j, target) ==> LessAt(i, target)
    {
      assert i < j ==> layout.marks[i] <= layout.marks[j];
    }

    /** Stands before the entry of a restart. */
    method GoToRestart(index: nat)
      requires Valid() && index < |layout.marks|
      modifies this`offset, this`pos
      ensures Valid() && Ready() && pos == layout.marks[index]
    {
      assert RestartAt(contents, restartsOffset, layout, index) && Restart(layout.entries, layout.marks[index]);
      offset := RestartOffset(index);
      pos := layout.marks[index];
    }

    /** Moves behind the first entry that is not less than the target, or to the start if there is none. */
    method Seek(target: seq<byte>) returns (ghost n: nat)
      requires Valid() && Ascends(layout.entries, less, target)
      modifies this
      ensures Valid() && Ready() && IsBound(n, layout.entries, less, target)
      ensures if n < |layout.entries| then On(n) else AtStart()
    {
      Reset();
      var low := FindRestart(target);
      GoToRestart(low);
      n := pos;
      while true
        invariant Valid() && Ready() && pos == n
        invariant forall i :: 0 <= i < n ==> less(KeyOf(layout.entries[i]), target)
        decreases |layout.entries| - n
      {
        var r := Next();
        if r == None { return; }
        if !less(r.value.key, target) { return; }
        n := n + 1;
      }
    }

    predicate Positioned()
      reads this
    {
      restartKey != [] && valueOffset > 0 && valueOffset <= restartsOffset
    }

    /** The pair that the iterator is behind; an empty key is taken for none. */
    method Current() returns (r: Option<Pair>)
      requires Valid() && (AtStart() || (pos > 0 && On(pos - 1)))
      ensures r == if pos > 0 && KeyOf(layout.entries[pos - 1]) != [] then Some(PairOf(layout.entries[pos - 1])) else None
    {
      if Positioned() {
        r := Some(Pair(restartKey, contents[valueOffset..offset]));
      } else {
        r := None;
      }
    }
  }

  /** A sealed block, gone through, gives the pairs that were added. */
  method All(contents: seq<byte>, less: Order, ghost l: Built) returns (ps: seq<Pair>)
    requires Block(contents, l)
    ensures ps == Pairs(l.entries)
  {
    var it := new DataBlockIterator(contents, less, l);
    ps := [];
    while true
      invariant fresh(it) && it.Valid() && it.Ready() && it.layout == l
      invariant it.pos == |ps| && forall i :: 0 <= i < |ps| ==> ps[i] == PairOf(l.entries[i])
      decreases |l.entries| - it.pos
    {
      var r := it.Next();
      if r == None { return; }
      ps := ps + [r.value];
    }
  }
}

/** Data blocks: pairs with prefix-compressed keys, and the offsets of the entries that have no prefix. */
module DataBlock {
  import opened Options
  import opened Bytes
  import Varint

  datatype Pair = Pair(key: seq<byte>, value: seq<byte>)

  /** A pair whose key shares its prefix with the key before it. */
  datatype Entry = Entry(prefix: seq<byte>, tail: seq<byte>, value: seq<byte>)

  function KeyOf(e: Entry): seq<byte> { e.prefix + e.tail }

  function PairOf(e: Entry): Pair { Pair(KeyOf(e), e.value) }

  function Pairs(es: seq<Entry>): (ps: seq<Pair>)
    ensures |ps| == |es| && forall i :: 0 <= i < |es| ==> ps[i] == PairOf(es[i])
  {
    seq(|es|, i requires 0 <= i < |es| => PairOf(es[i]))
  }

  function EntryBytes(e: Entry): (s: seq<byte>)
    ensures |s| > 0
  {
    Varint.Encode(|e.prefix|) + (Varint.Encode(|e.tail|) + (Varint.Encode(|e.value|) + (e.tail + e.value)))
  }

  function Encoded(es: seq<Entry>): seq<byte> {
    if es == [] then [] else Encoded(es[..|es| - 1]) + EntryBytes(es[|es| - 1])
  }

  lemma EncodedSnoc(es: seq<Entry>, e: Entry)
    ensures Encoded(es + [e]) == Encoded(es) + EntryBytes(e)
  {
    assert (es + [e])[..|es|] == es;
  }

  /** Where an entry begins. */
  function Start(es: seq<Entry>, i: nat): nat
    requires i <= |es|
  {
    |Encoded(es[..i])|
  }

  lemma StartEnds(es: seq<Entry>)
    ensures Start(es, 0) == 0 && Start(es, |es|) == |Encoded(es)|
  {
    assert es[..|es|] == es;
  }

  lemma StartNext(es: seq<Entry>, i: nat)
    requires i < |es|
    ensures Start(es, i + 1) == Start(es, i) + |EntryBytes(es[i])|
  {
    assert es[..i + 1][..i] == es[..i];
  }

  lemma {:induction false} StartInside(es: seq<Entry>, i: nat)
    requires i < |es|
    ensures Start(es, i + 1) <= |Encoded(es)|
    decreases |es|
  {
    if i + 1 == |es| {
      StartEnds(es);
    } else {
      StartInside(es[..|es| - 1], i);
      assert es[..|es| - 1][..i + 1] == es[..i + 1];
    }
  }

  lemma StartSnoc(es: seq<Entry>, e: Entry, i: nat)
    requires i <= |es|
    ensures Start(es + [e], i) == Start(es, i)
  {
    assert (es + [e])[..i] == es[..i];
  }

  function Le32s(ns: seq<nat>): (s: seq<byte>)
    ensures |s| == 4 * |ns|
  {
    if ns == [] then [] else Le32s(ns[..|ns| - 1]) + Le32(ns[|ns| - 1])
  }

  // ----- the block of some pairs -----

  /** What two keys share. */
  function Common(a: seq<byte>, b: seq<byte>): nat {
    if a == [] || b == [] || a[0] != b[0] then 0 else 1 + Common(a[1..], b[1..])
  }

  predicate Shares(a: seq<byte>, b: seq<byte>, n: nat) {
    n <= |a| && n <= |b| && a[..n] == b[..n]
  }

  lemma SharesTail(a: seq<byte>, b: seq<byte>, n: nat)
    requires 0 < n && a != [] && b != []
    ensures Shares(a, b, n) <==> a[0] == b[0] && Shares(a[1..], b[1..], n - 1)
  {
    if n <= |a| && n <= |b| {
      assert a[..n] == [a[0]] + a[1..][..n - 1] && b[..n] == [b[0]] + b[1..][..n - 1];
      assert a[..n][0] == a[0] && b[..n][0] == b[0] && a[..n][1..] == a[1..][..n - 1] && b[..n][1..] == b[1..][..n - 1];
    }
  }

  /** It is the longest common prefix. */
  lemma {:induction false} CommonIs(a: seq<byte>, b: seq<byte>, n: nat)
    ensures n == Common(a, b) <==> Shares(a, b, n) && !Shares(a, b, n + 1)
    decreases |a|
  {
    if a != [] && b != [] {
      SharesTail(a, b, n + 1);
      if n > 0 {
        SharesTail(a, b, n);
        CommonIs(a[1..], b[1..], n - 1);
      }
    }
  }

  /** The entries of a block, which of them are restarts, where these begin, and how many entries there are
      from the last of them on. */
  datatype Built = Built(entries: seq<Entry>, marks: seq<nat>, restarts: seq<nat>, counter: nat)

  function LastKey(ps: seq<Pair>): Option<seq<byte>> {
    if ps == [] then None else Some(ps[|ps| - 1].key)
  }

  /** What a key shares with the last one; nothing when a restart is due. */
  function SharedWith(last: Option<seq<byte>>, key: seq<byte>, due: bool): nat {
    if due || last.None? then 0 else Common(last.value, key)
  }

  function EntryFor(p: Pair, shared: nat): Entry
    requires shared <= |p.key|
  {
    Entry(p.key[..shared], p.key[shared..], p.value)
  }

  lemma SharedFits(last: Option<seq<byte>>, key: seq<byte>, due: bool)
    ensures
      var n := SharedWith(last, key, due);
      n <= |key| && (last.Some? ==> n <= |last.value| && key[..n] == last.value[..n])
  {
    if last.Some? { CommonIs(last.value, key, Common(last.value, key)); }
  }

  function Grow(b: Built, e: Entry, due: bool): Built {
    Built(b.entries + [e],
          if due then b.marks + [|b.entries|] else b.marks,
          if due then b.restarts + [|Encoded(b.entries)|] else b.restarts,
          if due then 1 else b.counter + 1)
  }

  /** A builder that has the pairs. */
  function BuiltOf(ps: seq<Pair>, interval: nat): Built {
    if ps == [] then Built([], [0], [0], 0)
    else
      var n := |ps| - 1;
      var b := BuiltOf(ps[..n], interval);
      var due := b.counter >= interval;
      var shared := SharedWith(LastKey(ps[..n]), ps[n].key, due);
      SharedFits(LastKey(ps[..n]), ps[n].key, due);
      Grow(b, EntryFor(ps[n], shared), due)
  }

  lemma BuiltSnoc(ps: seq<Pair>, interval: nat, p: Pair)
    ensures
      var b := BuiltOf(ps, interval);
      var due := b.counter >= interval;
      var shared := SharedWith(LastKey(ps), p.key, due);
      && shared <= |p.key|
      && BuiltOf(ps + [p], interval) == Grow(b, EntryFor(p, shared), due)
  {
    SharedFits(LastKey(ps), p.key, BuiltOf(ps, interval).counter >= interval);
    assert (ps + [p])[..|ps|] == ps;
  }

  /** The bytes of the sealed block; an offset beyond 32 bits loses its upper part. */
  function Image(b: Built): (s: seq<byte>)
    ensures |s| == |Encoded(b.entries)| + 4 * |b.restarts| + 4
  {
    Encoded(b.entries) + (Le32s(b.restarts) + Le32(|b.restarts|))
  }

  function BlockBytes(ps: seq<Pair>, interval: nat): seq<byte> {
    Image(BuiltOf(ps, interval))
  }

  // ----- what a reader relies on -----

  /** The key that an entry's prefix comes from. */
  function Before(es: seq<Entry>, i: nat): seq<byte>
    requires i <= |es|
  {
    if i == 0 then [] else KeyOf(es[i - 1])
  }

  ghost predicate LinkedAt(es: seq<Entry>, i: nat)
    requires i < |es|
  {
    es[i].prefix <= Before(es, i)
  }

  ghost predicate Linked(es: seq<Entry>) {
    forall i :: 0 <= i < |es| ==> LinkedAt(es, i)
  }

  /** A restart needs no key before it; a block without entries has the restart of its first. */
  predicate Restart(es: seq<Entry>, m: nat) {
    if es == [] then m == 0 else m < |es| && es[m].prefix == []
  }

  ghost predicate Rising(marks: seq<nat>) {
    forall j, k :: 0 <= j < k < |marks| ==> marks[j] <= marks[k]
  }

  ghost predicate Marked(es: seq<Entry>, marks: seq<nat>) {
    && |marks| > 0 && marks[0] == 0 && (es == [] ==> |marks| == 1) && Rising(marks)
    && forall j :: 0 <= j < |marks| ==> Restart(es, marks[j])
  }

  ghost predicate Offsets(restarts: seq<nat>, es: seq<Entry>, marks: seq<nat>) {
    && |restarts| == |marks|
    && forall j :: 0 <= j < |marks| ==> marks[j] <= |es| && restarts[j] == Start(es, marks[j])
  }

  ghost predicate Good(b: Built) {
    Linked(b.entries) && Marked(b.entries, b.marks) && Offsets(b.restarts, b.entries, b.marks)
  }

  lemma BeforeSnoc(es: seq<Entry>, e: Entry, i: nat)
    requires i <= |es|
    ensures Before(es + [e], i) == Before(es, i) && (es + [e])[i] == if i < |es| then es[i] else e
  {
  }

  lemma LinkedSnoc(es: seq<Entry>, e: Entry)
    requires Linked(es) && e.prefix <= Before(es, |es|)
    ensures Linked(es + [e])
  {
    forall i | 0 <= i < |es + [e]| ensures LinkedAt(es + [e], i) {
      if i < |es| {
        assert LinkedAt(es, i);
        BeforeSnoc(es, e, i);
      } else {
        BeforeSnoc(es, e, |es|);
      }
    }
  }

  lemma MarkedSnoc(es: seq<Entry>, marks: seq<nat>, e: Entry, due: bool)
    requires Marked(es, marks) && ((due || es == []) ==> e.prefix == [])
    ensures Marked(es + [e], if due then marks + [|es|] else marks)
  {
    var marks' := if due then marks + [|es|] else marks;
    forall j | 0 <= j < |marks'| ensures Restart(es + [e], marks'[j]) {
      if j < |marks| { assert marks'[j] == marks[j] && Restart(es, marks[j]); }
    }
  }

  lemma OffsetsSnoc(restarts: seq<nat>, es: seq<Entry>, marks: seq<nat>, e: Entry)
    requires Offsets(restarts, es, marks)
    ensures Offsets(restarts, es + [e], marks)
    ensures Offsets(restarts + [|Encoded(es)|], es + [e], marks + [|es|])
  {
    forall j | 0 <= j < |marks| ensures Start(es + [e], marks[j]) == Start(es, marks[j]) {
      StartSnoc(es, e, marks[j]);
    }
    StartSnoc(es, e, |es|);
    StartEnds(es);
  }

  lemma GrowGood(b: Built, e: Entry, due: bool)
    requires Good(b) && e.prefix <= Before(b.entries, |b.entries|) && (due ==> e.prefix == [])
    ensures Good(Grow(b, e, due))
  {
    LinkedSnoc(b.entries, e);
    MarkedSnoc(b.entries, b.marks, e, due);
    OffsetsSnoc(b.restarts, b.entries, b.marks, e);
  }

  lemma PairsSnoc(es: seq<Entry>, e: Entry)
    ensures Pairs(es + [e]) == Pairs(es) + [PairOf(e)]
  {
  }

  lemma EntryIs(p: Pair, shared: nat)
    requires shared <= |p.key|
    ensures PairOf(EntryFor(p, shared)) == p
  {
  }

  lemma LastBefore(es: seq<Entry>)
    ensures LastKey(Pairs(es)) == if es == [] then None else Some(Before(es, |es|))
  {
  }

  lemma GrowPair(b: Built, ps: seq<Pair>, p: Pair, due: bool)
    requires Good(b) && Pairs(b.entries) == ps
    ensures
      var shared := SharedWith(LastKey(ps), p.key, due);
      && shared <= |p.key|
      && Good(Grow(b, EntryFor(p, shared), due)) && Pairs(b.entries + [EntryFor(p, shared)]) == ps + [p]
  {
    var shared := SharedWith(LastKey(ps), p.key, due);
    SharedFits(LastKey(ps), p.key, due);
    EntryIs(p, shared);
    LastBefore(b.entries);
    GrowGood(b, EntryFor(p, shared), due);
    PairsSnoc(b.entries, EntryFor(p, shared));
  }

  lemma NoneBuilt()
    ensures Good(Built([], [0], [0], 0))
  {
    assert Start([], 0) == 0;
  }

  /** The block has the pairs, and each prefix and each restart is where the reader looks for it. */
  lemma {:induction false} BuiltGood(ps: seq<Pair>, interval: nat)
    ensures Good(BuiltOf(ps, interval)) && Pairs(BuiltOf(ps, interval).entries) == ps
    decreases |ps|
  {
    if ps == [] {
      NoneBuilt();
    } else {
      var n := |ps| - 1;
      BuiltGood(ps[..n], interval);
      var b := BuiltOf(ps[..n], interval);
      BuiltSnoc(ps[..n], interval, ps[n]);
      GrowPair(b, ps[..n], ps[n], b.counter >= interval);
      assert ps[..n] + [ps[n]] == ps;
    }
  }

  ghost predicate Spaced(marks: seq<nat>, interval: nat) {
    forall j :: 0 < j < |marks| ==> marks[j] == marks[j - 1] + Gap(interval, j)
  }

  function Gap(interval: nat, j: nat): nat {
    if interval == 0 && j > 1 then 1 else interval
  }

  ghost predicate Counted(b: Built, interval: nat) {
    && |b.marks| > 0 && b.counter == |b.entries| - b.marks[|b.marks| - 1]
    && if interval > 0 then b.counter <= interval
       else |b.marks| == (if b.entries == [] then 1 else |b.entries| + 1) && b.counter == if b.entries == [] then 0 else 1
  }

  lemma GrowSpaced(b: Built, e: Entry, interval: nat)
    requires Spaced(b.marks, interval) && Counted(b, interval)
    ensures Spaced(Grow(b, e, b.counter >= interval).marks, interval) && Counted(Grow(b, e, b.counter >= interval), interval)
  {
  }

  /** Restarts are `interval` entries apart; without an interval every entry is one, the first one twice. */
  lemma {:induction false} BuiltSpaced(ps: seq<Pair>, interval: nat)
    ensures Spaced(BuiltOf(ps, interval).marks, interval) && Counted(BuiltOf(ps, interval), interval)
    decreases |ps|
  {
    if ps != [] {
      var n := |ps| - 1;
      BuiltSpaced(ps[..n], interval);
      SharedFits(LastKey(ps[..n]), ps[n].key, BuiltOf(ps[..n], interval).counter >= interval);
      GrowSpaced(BuiltOf(ps[..n], interval), EntryFor(ps[n], SharedWith(LastKey(ps[..n]), ps[n].key, BuiltOf(ps[..n], interval).counter >= interval)), interval);
    }
  }

  // ----- the builder -----

  lemma Written(b: seq<byte>, e: Entry)
    ensures b + Varint.Encode(|e.prefix|) + Varint.Encode(|e.tail|) + Varint.Encode(|e.value|) + e.tail + e.value == b + EntryBytes(e)
  {
    var p, t, v := Varint.Encode(|e.prefix|), Varint.Encode(|e.tail|), Varint.Encode(|e.value|);
    assert b + p + t + v + e.tail + e.value == b + (p + (t + (v + (e.tail + e.value))));
  }

  method SharedLen(lastKey: seq<byte>, key: seq<byte>) returns (shared: nat)
    ensures shared == Common(lastKey, key)
  {
    var minLen := if |lastKey| <= |key| then |lastKey| else |key|;
    shared := 0;
    while shared < minLen && lastKey[shared] == key[shared]
      invariant shared <= minLen && lastKey[..shared] == key[..shared]
    {
      shared := shared + 1;
    }
    CommonIs(lastKey, key, shared);
  }

  lemma Le32sNext(s: seq<byte>, ns: seq<nat>, i: nat)
    requires i < |ns|
    ensures s + Le32s(ns[..i]) + Le32(ns[i]) == s + Le32s(ns[..i + 1])
  {
    assert ns[..i + 1][..i] == ns[..i];
    Joined(s, Le32s(ns[..i]), Le32(ns[i]));
  }

  /** What one more pair changes. */
  lemma BuiltAdd(ps: seq<Pair>, interval: nat, p: Pair)
    ensures
      var b, b' := BuiltOf(ps, interval), BuiltOf(ps + [p], interval);
      var due := b.counter >= interval;
      var shared := SharedWith(LastKey(ps), p.key, due);
      && shared <= |p.key|
      && Encoded(b'.entries) == Encoded(b.entries) + EntryBytes(EntryFor(p, shared))
      && b'.restarts == b.restarts + (if due then [|Encoded(b.entries)|] else [])
      && b'.counter == (if due then 0 else b.counter) + 1
      && LastKey(ps + [p]) == Some(p.key)
  {
    var b := BuiltOf(ps, interval);
    BuiltSnoc(ps, interval, p);
    EncodedSnoc(b.entries, EntryFor(p, SharedWith(LastKey(ps), p.key, b.counter >= interval)));
  }

  class DataBlockBuilder {
    var buffer: seq<byte>
    var restarts: seq<nat>
    const restartInterval: nat
    var lastKey: Option<seq<byte>>
    var restartCounter: nat
    ghost var added: seq<Pair> // since the builder was new

    ghost predicate Valid()
      reads this
    {
      var b := BuiltOf(added, restartInterval);
      && buffer == Encoded(b.entries) && restarts == b.restarts
      && restartCounter == b.counter && lastKey == LastKey(added)
    }

    constructor (restartInterval: nat)
      ensures Valid() && added == [] && this.restartInterval == restartInterval
    {
      buffer, restarts, lastKey, restartCounter := [], [0], None, 0;
      this.restartInterval := restartInterval;
      added := [];
    }

    predicate Empty()
      reads this
    {
      |buffer| == 0
    }

    function FullLen(): nat
      reads this
    {
      |buffer| + |restarts| * 4 + 4
    }

    lemma EmptyIs()
      requires Valid()
      ensures Empty() <==> added == []
      ensures FullLen() == |BlockBytes(added, restartInterval)|
    {
    }

    method Reset()
      modifies this
      ensures Valid() && added == []
    {
      buffer, restarts, lastKey, restartCounter := [], [0], None, 0;
      added := [];
    }

    /** Writes an entry whose key shares that much with the key before it. */
    method PutEntry(shared: nat, key: seq<byte>, value: seq<byte>)
      requires shared <= |key|
      modifies this`buffer
      ensures buffer == old(buffer) + EntryBytes(EntryFor(Pair(key, value), shared))
    {
      var nonShared := |key| - shared;
      buffer := buffer + Varint.Encode(shared);
      buffer := buffer + Varint.Encode(nonShared);
      buffer := buffer + Varint.Encode(|value|);
      buffer := buffer + key[shared..];
      buffer := buffer + value;
      Written(old(buffer), EntryFor(Pair(key, value), shared));
    }

    /** What the new key shares with the last one; when a restart is due, nothing. */
    method TakePrefix(key: seq<byte>) returns (shared: nat)
      modifies this`restarts, this`lastKey, this`restartCounter
      ensures
        var due := old(restartCounter) >= restartInterval;
        && shared == SharedWith(old(lastKey), key, due)
        && lastKey == (if due then None else old(lastKey))
        && restarts == old(restarts) + (if due then [|buffer|] else [])
        && restartCounter == (if due then 0 else old(restartCounter))
    {
      shared := 0;
      if restartCounter < restartInterval {
        if lastKey.Some? { shared := SharedLen(lastKey.value, key); }
      } else {
        restarts := restarts + [|buffer|];
        lastKey := None;
        restartCounter := 0;
      }
    }

    /** Makes the key the last one, by what it shares with the one before. */
    method SetLast(shared: nat, key: seq<byte>)
      requires shared <= |key| && (lastKey.Some? ==> shared <= |lastKey.value| && key[..shared] == lastKey.value[..shared])
      modifies this`lastKey
      ensures lastKey == Some(key)
    {
      assert key == key[..shared] + key[shared..];
      if lastKey.Some? {
        lastKey := Some(lastKey.value[..shared] + key[shared..]);
      } else {
        lastKey := Some(key);
      }
    }

    /** Writes the entry for a pair. */
    method Write(key: seq<byte>, value: seq<byte>) returns (ghost shared: nat)
      modifies this`buffer, this`restarts, this`lastKey, this`restartCounter
      ensures
        var due := old(restartCounter) >= restartInterval;
        && shared == SharedWith(old(lastKey), key, due) && shared <= |key|
        && buffer == old(buffer) + EntryBytes(EntryFor(Pair(key, value), shared))
        && restarts == old(restarts) + (if due then [|old(buffer)|] else [])
        && restartCounter == (if due then 0 else old(restartCounter)) + 1
        && lastKey == Some(key)
    {
      SharedFits(lastKey, key, restartCounter >= restartInterval);
      var n := TakePrefix(key);
      PutEntry(n, key, value);
      SetLast(n, key);
      restartCounter := restartCounter + 1;
      shared := n;
    }

    method Add(key: seq<byte>, value: seq<byte>)
      requires Valid()
      modifies this
      ensures Valid() && added == old(added) + [Pair(key, value)]
    {
      ghost var shared := Write(key, value);
      BuiltAdd(added, restartInterval, Pair(key, value));
      added := added + [Pair(key, value)];
    }

    /** The block's bytes; the builder has to be reset before it is used again. */
    method Seal() returns (r: seq<byte>)
      requires Valid()
      modifies this
      ensures r == BlockBytes(old(added), restartInterval) && buffer == [] && restarts == []
    {
      var numRestarts := |restarts|;
      for i := 0 to numRestarts
        invariant restarts == old(restarts)
        invariant buffer == old(buffer) + Le32s(restarts[..i])
      {
        Le32sNext(old(buffer), restarts, i);
        buffer := buffer + Le32(restarts[i]);
      }
      assert restarts[..numRestarts] == restarts;
      restarts := [];
      Joined(old(buffer), Le32s(old(restarts)), Le32(numRestarts));
      buffer := buffer + Le32(numRestarts);
      r := buffer;
      buffer := [];
    }
  }
}

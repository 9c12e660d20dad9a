/** Writing a bloom filter through a buffer of eight hashes, and asking it. */
module BloomFilter {
  import opened Bytes
  import opened Bloom

  const METADATA_SIZE := 1

  function High(h: u64): u32 { h / 0x1_0000_0000 }

  function Low(h: u64): u32 { h % 0x1_0000_0000 }

  // ----- sizes -----

  function ChooseNumProbes(millibits: nat): (n: nat)
    ensures 1 <= n <= 24
  {
    if millibits <= 2080 then 1
    else if millibits <= 3580 then 2
    else if millibits <= 5100 then 3
    else if millibits <= 6640 then 4
    else if millibits <= 8300 then 5
    else if millibits <= 10070 then 6
    else if millibits <= 11720 then 7
    else if millibits <= 14001 then 8
    else if millibits <= 16050 then 9
    else if millibits <= 18300 then 10
    else if millibits <= 22001 then 11
    else if millibits <= 25501 then 12
    else if millibits > 50000 then 24
    else (millibits - 1) / 2000 - 1
  }

  /** More bits never mean fewer probes, but for one dip from 12 to 11 right above 25501. */
  lemma ProbesMonotoneIff(m: nat, m': nat)
    requires m <= m'
    ensures ChooseNumProbes(m) <= ChooseNumProbes(m') <==> !(22002 <= m <= 25501 < m' <= 26000)
  {
  }

  function CalculateSpace(millibits: nat, entries: nat): nat {
    (if millibits > 0 && entries > 0 then (entries * millibits + 511999) / 512000 else 0) * LINE + METADATA_SIZE
  }

  /** The space is whole lines and a byte; there is a line exactly when there are keys and bits for them. */
  lemma SpaceIs(millibits: nat, entries: nat)
    ensures (CalculateSpace(millibits, entries) - METADATA_SIZE) % LINE == 0
    ensures CalculateSpace(millibits, entries) >= LINE + METADATA_SIZE <==> millibits > 0 && entries > 0
  {
    if millibits > 0 && entries > 0 { assert entries * millibits >= 1; }
  }

  // ----- where a hash goes -----

  /** The line of a hash: its lower half, as a fraction of 2^32, of the number of lines. */
  function PrepareHash(h1: u32, len: nat): nat {
    h1 * (len % 0x1_0000_0000 / LINE) / 0x1_0000_0000 * LINE
  }

  lemma Fraction(h: u32, n: nat)
    requires n > 0
    ensures h * n / 0x1_0000_0000 < n
  {
    assert h * n <= 0xffff_ffff * n;
    assert 0xffff_ffff * n < 0x1_0000_0000 * n;
  }

  /** The line of a hash lies within the data exactly when the data has lines. */
  lemma LineInside(h1: u32, len: nat)
    requires len % LINE == 0
    ensures (PrepareHash(h1, len) + LINE <= len <==> len > 0) && PrepareHash(h1, len) % LINE == 0
  {
    var n := len % 0x1_0000_0000 / LINE;
    if n > 0 { Fraction(h1, n); }
  }

  datatype Slot = Slot(h2: u32, offset: nat)

  function Prepared(h: u64, len: nat): Slot {
    Slot(High(h), PrepareHash(Low(h), len))
  }

  /** A probe of the hash names bit `k` of byte `i`. */
  ghost predicate Covers(s: Slot, probes: nat, i: nat, k: nat) {
    exists n: nat :: n < probes && At(s, n, i, k)
  }

  predicate At(s: Slot, n: nat, i: nat, k: nat) {
    s.offset + ByteOf(ProbeHash(s.h2, n)) == i && BitOf(ProbeHash(s.h2, n)) == k
  }

  ghost predicate Marked(es: set<u64>, len: nat, probes: nat, i: nat, k: nat) {
    exists e :: e in es && Covers(Prepared(e, len), probes, i, k)
  }

  lemma MarkedMore(es: set<u64>, e: u64, len: nat, probes: nat, i: nat, k: nat)
    ensures Marked(es + {e}, len, probes, i, k) <==> Marked(es, len, probes, i, k) || Covers(Prepared(e, len), probes, i, k)
  {
    if Marked(es, len, probes, i, k) {
      var x :| x in es && Covers(Prepared(x, len), probes, i, k);
      assert x in es + {e};
    }
    if Covers(Prepared(e, len), probes, i, k) { assert e in es + {e}; }
  }

  // ----- the writer -----

  /** Sets the probed bits of one line and no others. */
  method AddHashPrepared(h2: u32, numProbes: nat, data: array<bv8>, offset: nat)
    requires offset + LINE <= data.Length
    modifies data
    ensures forall i, k :: 0 <= i < data.Length && 0 <= k < 8 ==>
      (Bit(data[i], k) <==> Bit(old(data[i]), k) || Covers(Slot(h2, offset), numProbes, i, k))
    ensures forall i :: 0 <= i < data.Length && !(offset <= i < offset + LINE) ==> data[i] == old(data[i])
  {
    var h := h2;
    ghost var s := Slot(h2, offset);
    for n := 0 to numProbes
      invariant h == ProbeHash(h2, n)
      invariant forall i, k :: 0 <= i < data.Length && 0 <= k < 8 ==>
        (Bit(data[i], k) <==> Bit(old(data[i]), k) || Covers(s, n, i, k))
      invariant forall i :: 0 <= i < data.Length && !(offset <= i < offset + LINE) ==> data[i] == old(data[i])
    {
      var bitpos := h / 0x80_0000;
      NineBits(h);
      var at := offset + bitpos / 8;
      label Before:
      data[at] := data[at] | Mask(bitpos % 8);
      forall i, k | 0 <= i < data.Length && 0 <= k < 8
        ensures Bit(data[i], k) <==> Bit(old(data[i]), k) || Covers(s, n + 1, i, k)
      {
        OneMoreProbe(s, n, i, k);
        if i == at { OrBit(old@Before(data[at]), bitpos % 8, k); }
      }
      h := Step(h);
    }
  }

  lemma OneMoreProbe(s: Slot, n: nat, i: nat, k: nat)
    ensures Covers(s, n + 1, i, k) <==> Covers(s, n, i, k) || At(s, n, i, k)
  {
  }

  class FastLocalBloomBitsBuilder {
    const millibitsPerKey: nat
    const numProbes: nat
    var hashEntries: seq<u64>

    ghost predicate Valid()
      reads this
    {
      numProbes == ChooseNumProbes(millibitsPerKey)
    }

    constructor (millibitsPerKey: nat)
      ensures Valid() && hashEntries == [] && this.millibitsPerKey == millibitsPerKey
    {
      this.millibitsPerKey := millibitsPerKey;
      numProbes := ChooseNumProbes(millibitsPerKey);
      hashEntries := [];
    }

    /** The hash function is not part of this model: keys come as their hashes. */
    method AddKey(hash: u64)
      modifies this
      ensures hashEntries == old(hashEntries) + [hash]
    {
      hashEntries := hashEntries + [hash];
    }

    /** Each hash waits in one of eight slots until the slot is needed again or the hashes are through. */
    method AddAllEntries(data: array<bv8>, len: nat)
      requires len >= LINE && len % LINE == 0 && data.Length == len + METADATA_SIZE
      modifies this, data
      ensures hashEntries == []
      ensures data[len] == old(data[len])
      ensures forall i, k :: 0 <= i < data.Length && 0 <= k < 8 ==>
        (Bit(data[i], k) <==> Bit(old(data[i]), k) || Marked(Hashes(old(hashEntries)), len, numProbes, i, k))
    {
      var entries := hashEntries;
      hashEntries := [];
      var rest: seq<u64> := [];
      if 7 < |entries| {
        rest := entries[8..];
        entries := entries[..8];
      }
      ghost var all := old(hashEntries);
      assert all == entries + rest;
      var slots := seq(|entries|, i requires 0 <= i < |entries| => Prepared(entries[i], len));
      ghost var held := entries;
      ghost var done: set<u64> := {};
      for n := 0 to |rest|
        invariant hashEntries == []
        invariant |slots| == |held| && (|rest| > 0 ==> |slots| == 8)
        invariant forall j :: 0 <= j < |slots| ==> slots[j] == Prepared(held[j], len)
        invariant Hashes(all) == done + Hashes(held) + Hashes(rest[n..])
        invariant data[len] == old(data[len])
        invariant forall i, k :: 0 <= i < data.Length && 0 <= k < 8 ==>
          (Bit(data[i], k) <==> Bit(old(data[i]), k) || Marked(done, len, numProbes, i, k))
      {
        var j := n % 8;
        LineInside(Low(held[j]), len);
        AddHashPrepared(slots[j].h2, numProbes, data, slots[j].offset);
        forall i, k | 0 <= i < data.Length && 0 <= k < 8
          ensures Marked(done + {held[j]}, len, numProbes, i, k) <==>
            Marked(done, len, numProbes, i, k) || Covers(slots[j], numProbes, i, k)
        {
          MarkedMore(done, held[j], len, numProbes, i, k);
        }
        Moved(done, held, j, rest[n..]);
        assert rest[n..][1..] == rest[n + 1..];
        done := done + {held[j]};
        held := held[j := rest[n]];
        slots := slots[j := Prepared(rest[n], len)];
      }
      assert Hashes(rest[|rest|..]) == {};
      for n := 0 to |slots|
        invariant hashEntries == []
        invariant Hashes(all) == done + Hashes(held[n..])
        invariant data[len] == old(data[len])
        invariant forall i, k :: 0 <= i < data.Length && 0 <= k < 8 ==>
          (Bit(data[i], k) <==> Bit(old(data[i]), k) || Marked(done, len, numProbes, i, k))
      {
        LineInside(Low(held[n]), len);
        AddHashPrepared(slots[n].h2, numProbes, data, slots[n].offset);
        forall i, k | 0 <= i < data.Length && 0 <= k < 8
          ensures Marked(done + {held[n]}, len, numProbes, i, k) <==>
            Marked(done, len, numProbes, i, k) || Covers(slots[n], numProbes, i, k)
        {
          MarkedMore(done, held[n], len, numProbes, i, k);
        }
        assert held[n..] == [held[n]] + held[n + 1..];
        done := done + {held[n]};
      }
      assert Hashes(held[|slots|..]) == {};
      assert done == Hashes(all);
    }

    /** The finished filter: lines with exactly the probed bits set, and the number of probes. */
    method Seal() returns (r: seq<bv8>)
      requires Valid()
      modifies this
      ensures Sealed(r, Hashes(old(hashEntries)), numProbes)
      ensures |r| == CalculateSpace(millibitsPerKey, old(|hashEntries|))
    {
      var space := CalculateSpace(millibitsPerKey, |hashEntries|);
      SpaceIs(millibitsPerKey, |hashEntries|);
      var data := new bv8[space](_ => 0);
      var dataLen := space - METADATA_SIZE;
      ghost var all := hashEntries;
      if dataLen > 0 {
        AddAllEntries(data, dataLen);
        forall k: nat | k < 8 ensures !Bit(0, k) { ZeroBits(k); }
      }
      data[dataLen] := numProbes as bv8;
      CountByte(numProbes);
      r := data[..];
    }
  }

  function Hashes(s: seq<u64>): set<u64> {
    set e | e in s
  }

  /** One hash leaves its slot, the next one takes it. */
  lemma Moved(done: set<u64>, held: seq<u64>, j: nat, rest: seq<u64>)
    requires j < |held| && rest != []
    ensures done + Hashes(held) + Hashes(rest) == done + {held[j]} + Hashes(held[j := rest[0]]) + Hashes(rest[1..])
  {
    assert rest == [rest[0]] + rest[1..];
    forall e | e in held ensures e == held[j] || e in held[j := rest[0]] {
      var i :| 0 <= i < |held| && held[i] == e;
      if i != j { assert held[j := rest[0]][i] == e; }
    }
    assert held[j := rest[0]][j] == rest[0];
  }

  lemma ZeroBits(k: nat)
    requires k < 8
    ensures !Bit(0, k)
  {
  }

  lemma CountByte(n: nat)
    requires n <= 24
    ensures (n as bv8) as nat == n
  {
  }

  /** A filter for a set of hashes. */
  ghost predicate Sealed(r: seq<bv8>, es: set<u64>, probes: nat) {
    && |r| >= METADATA_SIZE
    && var len := |r| - METADATA_SIZE;
       && len % LINE == 0
       && r[len] as nat == probes
       && forall i, k :: 0 <= i < len && 0 <= k < 8 ==> (Bit(r[i], k) <==> Marked(es, len, probes, i, k))
  }

  // ----- the reader -----

  class FastLocalBloomBitsReader {
    const data: seq<bv8>
    const numProbes: nat

    constructor (filter: seq<bv8>)
      requires |filter| >= METADATA_SIZE
      ensures data == filter[..|filter| - METADATA_SIZE] && numProbes == filter[|filter| - METADATA_SIZE] as nat
    {
      data := filter[..|filter| - METADATA_SIZE];
      numProbes := filter[|filter| - METADATA_SIZE] as nat;
    }

    /** `vector` says for which processor the program was built. The line must be inside the data. */
    method MayMatch(hash: u64, vector: bool) returns (r: bool)
      requires |data| >= LINE && |data| % LINE == 0 && numProbes < 0x8000_0000
      ensures PrepareHash(Low(hash), |data|) + LINE <= |data|
      ensures r == AllSet(data[PrepareHash(Low(hash), |data|)..], High(hash), numProbes)
    {
      var offset := PrepareHash(Low(hash), |data|);
      LineInside(Low(hash), |data|);
      if vector {
        r := MatchVector(High(hash), numProbes, data[offset..]);
      } else {
        r := MatchScalar(High(hash), numProbes, data[offset..]);
      }
    }
  }

  /** Some hash added has probed the bit that a probe of the slot names. */
  ghost predicate Shared(es: set<u64>, len: nat, probes: nat, s: Slot, n: nat) {
    Marked(es, len, probes, s.offset + ByteOf(ProbeHash(s.h2, n)), BitOf(ProbeHash(s.h2, n)))
  }

  ghost predicate AllShared(es: set<u64>, len: nat, probes: nat, s: Slot) {
    forall n: nat :: n < probes ==> Shared(es, len, probes, s, n)
  }

  lemma LineMatches(r: seq<bv8>, es: set<u64>, probes: nat, s: Slot)
    requires Sealed(r, es, probes) && s.offset + LINE <= |r| - METADATA_SIZE
    ensures AllSet(r[..|r| - METADATA_SIZE][s.offset..], s.h2, probes) <==> AllShared(es, |r| - METADATA_SIZE, probes, s)
  {
    var len := |r| - METADATA_SIZE;
    var line := r[..len][s.offset..];
    forall n: nat | n < probes ensures ProbeSet(line, ProbeHash(s.h2, n)) <==> Shared(es, len, probes, s, n) {
      NineBits(ProbeHash(s.h2, n));
      assert line[ByteOf(ProbeHash(s.h2, n))] == r[s.offset + ByteOf(ProbeHash(s.h2, n))];
    }
  }

  /** The filter passes a hash exactly when every bit that the hash probes is probed by some hash added. */
  lemma PassesIff(r: seq<bv8>, es: set<u64>, probes: nat, hash: u64)
    requires Sealed(r, es, probes) && |r| > METADATA_SIZE
    ensures
      var len := |r| - METADATA_SIZE;
      var s := Prepared(hash, len);
      && s.offset + LINE <= len
      && (AllSet(r[..len][s.offset..], s.h2, probes) <==> AllShared(es, len, probes, s))
  {
    LineInside(Low(hash), |r| - METADATA_SIZE);
    LineMatches(r, es, probes, Prepared(hash, |r| - METADATA_SIZE));
  }

  lemma OwnProbes(es: set<u64>, len: nat, probes: nat, hash: u64, s: Slot, n: nat)
    requires hash in es && s == Prepared(hash, len) && n < probes
    ensures Shared(es, len, probes, s, n)
  {
    assert At(s, n, s.offset + ByteOf(ProbeHash(s.h2, n)), BitOf(ProbeHash(s.h2, n)));
  }

  /** So every hash that was added passes. */
  lemma NoFalseNegatives(r: seq<bv8>, es: set<u64>, probes: nat, hash: u64)
    requires Sealed(r, es, probes) && |r| > METADATA_SIZE && hash in es
    ensures
      var len := |r| - METADATA_SIZE;
      var s := Prepared(hash, len);
      s.offset + LINE <= len && AllSet(r[..len][s.offset..], s.h2, probes)
  {
    var len := |r| - METADATA_SIZE;
    var s := Prepared(hash, len);
    PassesIff(r, es, probes, hash);
    forall n: nat | n < probes ensures Shared(es, len, probes, s, n) { OwnProbes(es, len, probes, hash, s, n); }
  }
}

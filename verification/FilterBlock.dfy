/** The filter of a table: a bloom filter over all its keys. */
module FilterBlock {
  import opened Bytes
  import opened Bloom
  import opened BloomFilter

  /** The hash function; nothing is assumed about it. */
  const Hash64: seq<byte> -> u64

  function HashesOf(keys: seq<seq<byte>>): (hs: seq<u64>)
    ensures |hs| == |keys| && forall i :: 0 <= i < |hs| ==> hs[i] == Hash64(keys[i])
  {
    seq(|keys|, i requires 0 <= i < |keys| => Hash64(keys[i]))
  }

  function ToBytes(s: seq<bv8>): (r: seq<byte>)
    ensures |r| == |s|
  {
    seq(|s|, i requires 0 <= i < |s| => s[i] as nat)
  }

  function FromBytes(s: seq<byte>): (r: seq<bv8>)
    ensures |r| == |s|
  {
    seq(|s|, i requires 0 <= i < |s| => s[i] as bv8)
  }

  lemma ByteBack(b: bv8)
    ensures (b as nat) as bv8 == b
  {
  }

  lemma BytesBack(s: seq<bv8>)
    ensures FromBytes(ToBytes(s)) == s
  {
    forall i | 0 <= i < |s| ensures FromBytes(ToBytes(s))[i] == s[i] { ByteBack(s[i]); }
  }

  /** A filter block for some keys; it is empty when there are none. */
  ghost predicate FilterFor(block: seq<byte>, keys: seq<seq<byte>>) {
    if keys == [] then block == []
    else
      && |block| >= METADATA_SIZE
      && Sealed(FromBytes(block), Hashes(HashesOf(keys)), FromBytes(block)[|block| - 1] as nat)
  }

  /** A lookup in the filter stays inside: there is no filter, or it has lines. */
  predicate StaysInside(block: seq<byte>) {
    block == [] || |block| > METADATA_SIZE
  }

  class FullFilterBlockBuilder {
    const filterBitsBuilder: FastLocalBloomBitsBuilder
    var numAdded: nat
    ghost var keys: seq<seq<byte>>

    ghost predicate Valid()
      reads this, filterBitsBuilder
    {
      && filterBitsBuilder.Valid()
      && numAdded == |keys| && filterBitsBuilder.hashEntries == HashesOf(keys)
    }

    constructor (millibitsPerKey: nat)
      ensures Valid() && keys == [] && fresh(filterBitsBuilder) && filterBitsBuilder.millibitsPerKey == millibitsPerKey
    {
      filterBitsBuilder := new FastLocalBloomBitsBuilder(millibitsPerKey);
      numAdded := 0;
      keys := [];
    }

    method Add(key: seq<byte>)
      requires Valid()
      modifies this, filterBitsBuilder
      ensures Valid() && keys == old(keys) + [key]
    {
      filterBitsBuilder.AddKey(Hash64(key));
      numAdded := numAdded + 1;
      keys := keys + [key];
    }

    method Seal() returns (r: seq<byte>)
      requires Valid()
      modifies filterBitsBuilder
      ensures FilterFor(r, keys)
      ensures StaysInside(r) <==> filterBitsBuilder.millibitsPerKey > 0 || keys == []
    {
      r := [];
      if numAdded > 0 {
        SpaceIs(filterBitsBuilder.millibitsPerKey, |filterBitsBuilder.hashEntries|);
        var bits := filterBitsBuilder.Seal();
        BytesBack(bits);
        r := ToBytes(bits);
      }
    }
  }

  class FullFilterBlockReader {
    const block: seq<byte>

    constructor (block: seq<byte>)
      ensures this.block == block
    {
      this.block := block;
    }

    /** Every key that was added may match. */
    method KeyMayMatch(key: seq<byte>, vector: bool, ghost keys: seq<seq<byte>>) returns (r: bool)
      requires FilterFor(block, keys) && keys != [] && StaysInside(block)
      ensures key in keys ==> r
    {
      var bits := FromBytes(block);
      var reader := new FastLocalBloomBitsReader(bits);
      var len := |bits| - METADATA_SIZE;
      LineOf(bits, keys);
      SmallCount(bits[len]);
      r := reader.MayMatch(Hash64(key), vector);
      if key in keys {
        HashOf(keys, key);
        NoFalseNegatives(bits, Hashes(HashesOf(keys)), bits[len] as nat, Hash64(key));
      }
    }
  }

  lemma LineOf(bits: seq<bv8>, keys: seq<seq<byte>>)
    requires |bits| > METADATA_SIZE && Sealed(bits, Hashes(HashesOf(keys)), bits[|bits| - 1] as nat)
    ensures |bits| - METADATA_SIZE >= LINE && (|bits| - METADATA_SIZE) % LINE == 0
  {
  }

  lemma SmallCount(b: bv8)
    ensures b as nat < 0x8000_0000
  {
  }

  lemma HashOf(keys: seq<seq<byte>>, key: seq<byte>)
    requires key in keys
    ensures Hash64(key) in Hashes(HashesOf(keys))
  {
    var i :| 0 <= i < |keys| && keys[i] == key;
    assert HashesOf(keys)[i] == Hash64(key);
  }
}

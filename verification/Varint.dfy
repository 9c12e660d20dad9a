/** Variable-length integers: groups of seven bits, the least significant first. */
module Varint {
  import opened Bytes

  function Encode(n: nat): (s: seq<byte>)
    ensures |s| >= 1
  {
    if n < 128 then [n] else [128 + n % 128] + Encode(n / 128)
  }

  datatype Decoded = Decoded(value: nat, len: nat)

  /** The number at a position, and how many bytes it takes. */
  function Decode(f: seq<byte>, p: nat): Decoded
    decreases |f| - p
  {
    if p >= |f| then Decoded(0, 0)
    else if f[p] < 128 then Decoded(f[p], 1)
    else
      var d := Decode(f, p + 1);
      Decoded(f[p] - 128 + 128 * d.value, d.len + 1)
  }

  lemma {:induction false} DecodeBack(f: seq<byte>, p: nat, n: nat)
    requires Has(f, p, Encode(n))
    ensures Decode(f, p) == Decoded(n, |Encode(n)|)
    decreases n
  {
    if n >= 128 {
      assert Encode(n)[1..] == Encode(n / 128);
      DecodeBack(f, p + 1, n / 128);
    }
  }
}

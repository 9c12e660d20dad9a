/** Byte strings: little-endian numbers, and what lies where in a file. */
module Bytes {
  type byte = x: nat | x < 256
  type u32 = x: nat | x < 0x1_0000_0000
  type u64 = x: nat | x < 0x1_0000_0000_0000_0000

  /** The checksum function; nothing is assumed about it. */
  const Crc32: seq<byte> -> u32

  // ----- little-endian numbers -----

  function Le16(n: nat): (s: seq<byte>)
    ensures |s| == 2
  {
    [n % 256, n / 256 % 256]
  }

  function Le32(n: nat): (s: seq<byte>)
    ensures |s| == 4
  {
    [n % 256, n / 256 % 256, n / 65536 % 256, n / 16777216 % 256]
  }

  function FromLe16(s: seq<byte>): nat
    requires |s| == 2
  {
    s[0] as nat + 256 * (s[1] as nat)
  }

  function FromLe32(s: seq<byte>): nat
    requires |s| == 4
  {
    s[0] as nat + 256 * (s[1] as nat) + 65536 * (s[2] as nat) + 16777216 * (s[3] as nat)
  }

  lemma Le16Back(n: nat)
    requires n < 0x10000
    ensures FromLe16(Le16(n)) == n
  {
  }

  lemma Le32Back(n: u32)
    ensures FromLe32(Le32(n)) == n
  {
    var q1 := n / 256;
    var q2 := q1 / 256;
    var q3 := q2 / 256;
    assert n == n % 256 + 256 * q1 && q1 == q1 % 256 + 256 * q2 && q2 == q2 % 256 + 256 * q3;
    assert n / 65536 == q2 && n / 16777216 == q3;
  }

  function Le64(n: nat): (s: seq<byte>)
    ensures |s| == 8
  {
    Le32(n % 0x1_0000_0000) + Le32(n / 0x1_0000_0000)
  }

  function FromLe64(s: seq<byte>): nat
    requires |s| == 8
  {
    FromLe32(s[..4]) + 0x1_0000_0000 * FromLe32(s[4..])
  }

  lemma Le64Back(n: u64)
    ensures FromLe64(Le64(n)) == n
  {
    var low, high := n % 0x1_0000_0000, n / 0x1_0000_0000;
    assert n == low + 0x1_0000_0000 * high;
    Le32Back(low);
    Le32Back(high);
    Halves(Le32(low), Le32(high));
  }

  lemma Halves(a: seq<byte>, b: seq<byte>)
    requires |a| == 4 && |b| == 4
    ensures FromLe64(a + b) == FromLe32(a) + 0x1_0000_0000 * FromLe32(b)
  {
    assert (a + b)[..4] == a && (a + b)[4..] == b;
  }

  // ----- bytes in a file -----

  lemma Joined(s: seq<byte>, a: seq<byte>, b: seq<byte>)
    ensures s + a + b == s + (a + b)
  {
  }

  /** The bytes `s` are in the file at `p`. */
  ghost predicate Has(f: seq<byte>, p: nat, s: seq<byte>)
    decreases |s|
  {
    s == [] || (p < |f| && f[p] == s[0] && Has(f, p + 1, s[1..]))
  }

  lemma {:induction false} HasIs(f: seq<byte>, p: nat, s: seq<byte>)
    requires p <= |f|
    ensures Has(f, p, s) <==> p + |s| <= |f| && f[p..p + |s|] == s
    decreases |s|
  {
    if s != [] && p < |f| {
      HasIs(f, p + 1, s[1..]);
      if Has(f, p, s) { assert f[p..p + |s|] == [f[p]] + f[p + 1..p + |s|]; }
      if p + |s| <= |f| && f[p..p + |s|] == s {
        assert f[p] == f[p..p + |s|][0];
        assert f[p + 1..p + |s|] == f[p..p + |s|][1..];
      }
    }
  }

  lemma {:induction false} HasParts(f: seq<byte>, p: nat, a: seq<byte>, b: seq<byte>)
    requires Has(f, p, a + b)
    ensures Has(f, p, a) && Has(f, p + |a|, b)
    decreases |a|
  {
    if a == [] {
      assert a + b == b;
    } else {
      assert (a + b)[1..] == a[1..] + b;
      HasParts(f, p + 1, a[1..], b);
    }
  }

  lemma HasLength(f: seq<byte>, p: nat, s: seq<byte>)
    requires Has(f, p, s) && s != []
    ensures p + |s| <= |f|
  {
    HasIs(f, p, s);
  }

  /** Bytes that are there end within the file. */
  lemma HasSlice(f: seq<byte>, p: nat, s: seq<byte>)
    requires Has(f, p, s) && s != []
    ensures p + |s| <= |f| && f[p..p + |s|] == s
  {
    HasIs(f, p, s);
  }

  lemma {:induction false} HasWhole(s: seq<byte>, a: seq<byte>, b: seq<byte>)
    requires s == a + b
    ensures Has(s, 0, a) && Has(s, |a|, b)
  {
    assert s[0..|s|] == s;
    HasIs(s, 0, s);
    HasParts(s, 0, a, b);
  }

  lemma ThreeParts(f: seq<byte>, a: seq<byte>, b: seq<byte>, c: seq<byte>)
    requires f == a + (b + c)
    ensures Has(f, 0, a) && Has(f, |a|, b) && Has(f, |a| + |b|, c)
  {
    HasWhole(f, a, b + c);
    HasParts(f, |a|, b, c);
  }

  // ----- numbers in a file -----

  function NumberAt(f: seq<byte>, p: nat): nat {
    if p + 4 <= |f| then FromLe32(f[p..p + 4]) else 0
  }

  lemma NumberBack(f: seq<byte>, p: nat, n: nat)
    requires Has(f, p, Le32(n)) && n < 0x1_0000_0000
    ensures NumberAt(f, p) == n
  {
    HasSlice(f, p, Le32(n));
    Le32Back(n);
  }

  function LongAt(f: seq<byte>, p: nat): nat {
    if p + 8 <= |f| then FromLe64(f[p..p + 8]) else 0
  }

  lemma LongBack(f: seq<byte>, p: nat, n: nat)
    requires Has(f, p, Le64(n)) && n < 0x1_0000_0000_0000_0000
    ensures LongAt(f, p) == n
  {
    HasSlice(f, p, Le64(n));
    Le64Back(n);
  }
}

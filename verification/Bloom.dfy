/** The probes of the bloom filter: the scalar loop, and eight lanes at a time. Hashes are 32-bit
    numbers; shifting one right is dividing it, shifting it left is multiplying modulo 2^32. */
module Bloom {
  import opened Bytes

  const LINE := 64


  // ----- probes -----

  /** Wrapping multiplication by 0x9e3779b9. */
  function Step(h: u32): u32 {
    h * 0x9e3779b9 % 0x1_0000_0000
  }

  /** The hash that the i-th probe uses. */
  function ProbeHash(h: u32, i: nat): u32 {
    if i == 0 then h else Step(ProbeHash(h, i - 1))
  }

  /** The top nine bits of a hash name a bit of the line: six the byte, three the bit of the byte. */
  function ByteOf(h: u32): nat {
    h / 0x400_0000
  }

  function BitOf(h: u32): nat {
    h / 0x80_0000 % 8
  }

  lemma NineBits(h: u32)
    ensures h / 0x80_0000 / 8 == ByteOf(h) < LINE
  {
  }

  function Mask(k: nat): bv8
    requires k < 8
  {
    match k
    case 0 => 1
    case 1 => 2
    case 2 => 4
    case 3 => 8
    case 4 => 16
    case 5 => 32
    case 6 => 64
    case 7 => 128
  }

  predicate Bit(b: bv8, k: nat)
    requires k < 8
  {
    b & Mask(k) != 0
  }

  lemma OrBit(b: bv8, j: nat, k: nat)
    requires j < 8 && k < 8
    ensures Bit(b | Mask(j), k) <==> Bit(b, k) || j == k
  {
  }

  // ----- the scalar probe -----

  predicate ProbeSet(line: seq<bv8>, h: u32)
    requires |line| >= LINE
  {
    NineBits(h);
    Bit(line[ByteOf(h)], BitOf(h))
  }

  /** A line matches when all the bits probed are set. */
  predicate AllSet(line: seq<bv8>, h: u32, probes: nat)
    requires |line| >= LINE
  {
    forall n: nat :: n < probes ==> ProbeSet(line, ProbeHash(h, n))
  }

  method MatchScalar(h2: u32, numProbes: nat, data: seq<bv8>) returns (r: bool)
    requires |data| >= LINE
    ensures r == AllSet(data, h2, numProbes)
  {
    var h := h2;
    for n := 0 to numProbes
      invariant h == ProbeHash(h2, n) && AllSet(data, h2, n)
    {
      var bitpos := h / 0x80_0000;
      NineBits(h);
      if data[bitpos / 8] & Mask(bitpos % 8) == 0 {
        assert !ProbeSet(data, ProbeHash(h2, n));
        return false;
      }
      h := Step(h);
    }
    return true;
  }

  // ----- the vector probe: eight 32-bit lanes -----

  /** The multiplier of a lane: the step to the power of the lane's number. */
  function Multiplier(j: nat): u32
    requires j < 8
  {
    match j
    case 0 => 0x00000001
    case 1 => 0x9e3779b9
    case 2 => 0xe35e67b1
    case 3 => 0x734297e9
    case 4 => 0x35fbe861
    case 5 => 0xdeb7c719
    case 6 => 0x0448b211
    case 7 => 0x3459b749
  }

  /** The hash in a lane. */
  function LaneHash(h: u32, j: nat): u32
    requires j < 8
  {
    h * Multiplier(j) % 0x1_0000_0000
  }

  /** A little-endian word of four bytes. */
  function Word(b0: bv8, b1: bv8, b2: bv8, b3: bv8): bv32 {
    (b0 as bv32) | ((b1 as bv32) << 8) | ((b2 as bv32) << 16) | ((b3 as bv32) << 24)
  }

  function LoadWord(data: seq<bv8>, w: nat): bv32
    requires 4 * w + 4 <= |data|
  {
    Word(data[4 * w], data[4 * w + 1], data[4 * w + 2], data[4 * w + 3])
  }

  /** The sign bit of a lane in all its bits. */
  function SignFill(h: u32): bv32 {
    if h >= 0x8000_0000 then 0xffff_ffff else 0
  }

  /** Byte by byte, `b` where the selector's byte has its top bit, else `a`. */
  function Blend(a: bv32, b: bv32, selector: bv32): bv32 {
    (if selector & 0x80 != 0 then b & 0xff else a & 0xff)
    | (if selector & 0x8000 != 0 then b & 0xff00 else a & 0xff00)
    | (if selector & 0x80_0000 != 0 then b & 0xff_0000 else a & 0xff_0000)
    | (if selector & 0x8000_0000 != 0 then b & 0xff00_0000 else a & 0xff00_0000)
  }

  /** The word a lane reads: the low three bits of its top four permute both halves of the line, and
      the sign bit chooses the half. */
  function LaneWord(data: seq<bv8>, hv: u32): bv32
    requires |data| >= LINE
  {
    var address := hv / 0x1000_0000 % 8;
    Blend(LoadWord(data, address), LoadWord(data, 8 + address), SignFill(hv))
  }

  /** 1 for the lanes below the number of probes left, else 0: the sign of the difference. */
  function LaneSelector(j: nat, remProbes: nat): nat {
    (j - remProbes) % 0x1_0000_0000 / 0x8000_0000
  }

  /** One bit of a word. */
  function WordMask(k: nat): bv32
    requires k < 32
  {
    var m := Mask(k % 8) as bv32;
    if k / 8 == 0 then m else if k / 8 == 1 then m << 8 else if k / 8 == 2 then m << 16 else m << 24
  }

  /** The selector shifted by the five bits below the top four. */
  function LaneMask(hv: u32, selector: nat): bv32 {
    var bitAddress := hv * 16 % 0x1_0000_0000 / 0x800_0000;
    if selector == 1 then WordMask(bitAddress) else 0
  }

  /** The lane finds no bit of its mask missing. */
  predicate LaneTest(data: seq<bv8>, hv: u32, selector: nat)
    requires |data| >= LINE
  {
    !LaneWord(data, hv) & LaneMask(hv, selector) == 0
  }

  lemma SelectorIs(j: nat, remProbes: nat)
    requires j < 8 && remProbes < 0x8000_0000
    ensures LaneSelector(j, remProbes) == if j < remProbes then 1 else 0
  {
  }

  /** A hash by its top bits: four for the word, two for the byte in it, three for the bit. */
  lemma Parts(h: u32) returns (w: nat, a: nat, b: nat, low: nat)
    ensures w < 16 && a < 4 && b < 8 && low < 0x80_0000
    ensures h == w * 0x1000_0000 + a * 0x400_0000 + b * 0x80_0000 + low
  {
    w := h / 0x1000_0000;
    var r := h - w * 0x1000_0000;
    a := r / 0x400_0000;
    var r' := r - a * 0x400_0000;
    b := r' / 0x80_0000;
    low := r' - b * 0x80_0000;
  }

  lemma TopBits(w: nat, a: nat, b: nat, low: nat)
    requires w < 16 && a < 4 && b < 8 && low < 0x80_0000
    ensures
      var h := w * 0x1000_0000 + a * 0x400_0000 + b * 0x80_0000 + low;
      && h / 0x1000_0000 == w && h / 0x400_0000 == 4 * w + a && h / 0x80_0000 == 8 * (4 * w + a) + b
      && (h >= 0x8000_0000 <==> w >= 8)
  {
  }

  lemma MiddleBits(w: nat, a: nat, b: nat, low: nat)
    requires w < 16 && a < 4 && b < 8 && low < 0x80_0000
    ensures
      var h := w * 0x1000_0000 + a * 0x400_0000 + b * 0x80_0000 + low;
      h * 16 % 0x1_0000_0000 == (8 * a + b) * 0x800_0000 + low * 16
  {
    var rest := (8 * a + b) * 0x800_0000 + low * 16;
    assert (w * 0x1000_0000 + a * 0x400_0000 + b * 0x80_0000 + low) * 16 == rest + w * 0x1_0000_0000;
    WholeTurns(rest, w);
  }

  lemma FiveBits(k: nat, low: nat)
    requires k < 32 && low < 0x80_0000
    ensures (k * 0x800_0000 + low * 16) / 0x800_0000 == k
  {
  }

  /** Which byte of which word, and which bit of it. */
  lemma Address(h: u32)
    ensures
      var w, k := h / 0x1000_0000, h * 16 % 0x1_0000_0000 / 0x800_0000;
      && w < 16 && k < 32 && ByteOf(h) == 4 * w + k / 8 && BitOf(h) == k % 8
      && w == w % 8 + if h >= 0x8000_0000 then 8 else 0
  {
    var w, a, b, low := Parts(h);
    TopBits(w, a, b, low);
    MiddleBits(w, a, b, low);
    FiveBits(8 * a + b, low);
  }

  predicate OneBit(m: bv8) {
    m != 0 && m & (m - 1) == 0
  }

  lemma MaskOneBit(k: nat)
    requires k < 8
    ensures OneBit(Mask(k))
  {
  }

  lemma WordByte0(b0: bv8, b1: bv8, b2: bv8, b3: bv8, m: bv8)
    requires OneBit(m)
    ensures !Word(b0, b1, b2, b3) & (m as bv32) == 0 <==> b0 & m != 0
  {
  }

  lemma WordByte1(b0: bv8, b1: bv8, b2: bv8, b3: bv8, m: bv8)
    requires OneBit(m)
    ensures !Word(b0, b1, b2, b3) & ((m as bv32) << 8) == 0 <==> b1 & m != 0
  {
  }

  lemma WordByte2(b0: bv8, b1: bv8, b2: bv8, b3: bv8, m: bv8)
    requires OneBit(m)
    ensures !Word(b0, b1, b2, b3) & ((m as bv32) << 16) == 0 <==> b2 & m != 0
  {
  }

  lemma WordByte3(b0: bv8, b1: bv8, b2: bv8, b3: bv8, m: bv8)
    requires OneBit(m)
    ensures !Word(b0, b1, b2, b3) & ((m as bv32) << 24) == 0 <==> b3 & m != 0
  {
  }

  /** A bit of a word is a bit of one of its bytes. */
  lemma WordBit(b0: bv8, b1: bv8, b2: bv8, b3: bv8, k: nat)
    requires k < 32
    ensures
      var b := if k / 8 == 0 then b0 else if k / 8 == 1 then b1 else if k / 8 == 2 then b2 else b3;
      !Word(b0, b1, b2, b3) & WordMask(k) == 0 <==> Bit(b, k % 8)
  {
    MaskOneBit(k % 8);
    var m := Mask(k % 8);
    if k / 8 == 0 { WordByte0(b0, b1, b2, b3, m); }
    else if k / 8 == 1 { WordByte1(b0, b1, b2, b3, m); }
    else if k / 8 == 2 { WordByte2(b0, b1, b2, b3, m); }
    else { WordByte3(b0, b1, b2, b3, m); }
  }

  lemma BlendIs(a: bv32, b: bv32, h: u32)
    ensures Blend(a, b, SignFill(h)) == if h >= 0x8000_0000 then b else a
  {
  }

  /** A selected lane tests exactly the bit that the scalar probe tests; the others pass. */
  lemma LaneIs(data: seq<bv8>, hv: u32, selector: nat)
    requires |data| >= LINE && selector < 2
    ensures LaneTest(data, hv, selector) <==> selector == 0 || ProbeSet(data, hv)
  {
    LaneWordIs(data, hv);
    Address(hv);
    var w, k := hv / 0x1000_0000, hv * 16 % 0x1_0000_0000 / 0x800_0000;
    if selector == 1 { LoadedBit(data, w, k); }
  }

  lemma LoadedBit(data: seq<bv8>, w: nat, k: nat)
    requires |data| >= LINE && w < 16 && k < 32
    ensures !LoadWord(data, w) & WordMask(k) == 0 <==> Bit(data[4 * w + k / 8], k % 8)
  {
    WordBit(data[4 * w], data[4 * w + 1], data[4 * w + 2], data[4 * w + 3], k);
  }

  lemma LaneWordIs(data: seq<bv8>, hv: u32)
    requires |data| >= LINE
    ensures LaneWord(data, hv) == LoadWord(data, hv / 0x1000_0000)
  {
    var w := hv / 0x1000_0000;
    Address(hv);
    BlendIs(LoadWord(data, w % 8), LoadWord(data, 8 + w % 8), hv);
  }

  // ----- the multipliers -----

  /** Multiples of 2^32 do not matter. */
  lemma WholeTurns(x: int, turns: int)
    ensures (x + turns * 0x1_0000_0000) % 0x1_0000_0000 == x % 0x1_0000_0000
  {
  }

  /** Multiplying by `m` and then by the step is multiplying by `m'`, when these differ by whole turns. */
  lemma PowerStep(h: u32, m: nat, m': nat, turns: nat)
    requires m * 0x9e3779b9 == m' + turns * 0x1_0000_0000
    ensures Step(h * m % 0x1_0000_0000) == h * m' % 0x1_0000_0000
  {
    var k := h * m / 0x1_0000_0000;
    var x := h * m % 0x1_0000_0000;
    assert h * m == k * 0x1_0000_0000 + x;
    assert h * (m * 0x9e3779b9) == (h * m) * 0x9e3779b9;
    assert h * (m' + turns * 0x1_0000_0000) == h * m' + h * turns * 0x1_0000_0000;
    assert x * 0x9e3779b9 == h * m' + (h * turns - k * 0x9e3779b9) * 0x1_0000_0000;
    WholeTurns(h * m', h * turns - k * 0x9e3779b9);
  }

  /** From lane to lane it is one step. */
  lemma LaneStep(h: u32, j: nat)
    requires j < 7
    ensures Step(LaneHash(h, j)) == LaneHash(h, j + 1)
  {
    match j
    case 0 => PowerStep(h, 0x00000001, 0x9e3779b9, 0);
    case 1 => PowerStep(h, 0x9e3779b9, 0xe35e67b1, 1640531525);
    case 2 => PowerStep(h, 0xe35e67b1, 0x734297e9, 2357561699);
    case 3 => PowerStep(h, 0x734297e9, 0x35fbe861, 1195119582);
    case 4 => PowerStep(h, 0x35fbe861, 0xdeb7c719, 559754293);
    case 5 => PowerStep(h, 0xdeb7c719, 0x0448b211, 2309337155);
    case 6 => PowerStep(h, 0x0448b211, 0x3459b749, 44419982);
  }

  /** Lane `j` holds the hash of the j-th probe from here. */
  lemma {:induction false} LaneProbe(h: u32, j: nat)
    requires j < 8
    ensures LaneHash(h, j) == ProbeHash(h, j)
  {
    if j > 0 {
      LaneProbe(h, j - 1);
      LaneStep(h, j - 1);
    }
  }

  /** The multiplier of the loop goes eight probes on. */
  function Step8(h: u32): u32 {
    h * 0xab25f4c1 % 0x1_0000_0000
  }

  lemma EightSteps(h: u32)
    ensures Step8(h) == ProbeHash(h, 8)
  {
    LaneProbe(h, 7);
    PowerStep(h, 0x3459b749, 0xab25f4c1, 542816073);
  }

  lemma {:induction false} ProbeSum(h: u32, a: nat, b: nat)
    ensures ProbeHash(ProbeHash(h, a), b) == ProbeHash(h, a + b)
  {
    if b > 0 { ProbeSum(h, a, b - 1); }
  }

  // ----- both probes agree -----

  predicate LanePasses(data: seq<bv8>, h: u32, j: nat, remProbes: nat)
    requires |data| >= LINE && j < 8
  {
    LaneTest(data, LaneHash(h, j), LaneSelector(j, remProbes))
  }

  lemma LanePassesIs(data: seq<bv8>, h: u32, j: nat, remProbes: nat)
    requires |data| >= LINE && remProbes < 0x8000_0000 && j < 8
    ensures LanePasses(data, h, j, remProbes) <==> (j < remProbes ==> ProbeSet(data, ProbeHash(h, j)))
  {
    SelectorIs(j, remProbes);
    LaneProbe(h, j);
    LaneIs(data, LaneHash(h, j), LaneSelector(j, remProbes));
  }

  /** All eight lanes together test the next eight probes, or those that are left. */
  predicate LanesPass(data: seq<bv8>, h: u32, remProbes: nat)
    requires |data| >= LINE
  {
    forall j: nat :: j < 8 ==> LanePasses(data, h, j, remProbes)
  }

  lemma LanesAre(data: seq<bv8>, h: u32, remProbes: nat)
    requires |data| >= LINE && remProbes < 0x8000_0000
    ensures LanesPass(data, h, remProbes) <==> AllSet(data, h, if remProbes <= 8 then remProbes else 8)
  {
    forall j: nat | j < 8
      ensures LanePasses(data, h, j, remProbes) <==> (j < remProbes ==> ProbeSet(data, ProbeHash(h, j)))
    {
      LanePassesIs(data, h, j, remProbes);
    }
  }

  /** Eight probes, and then the rest from the eighth on. */
  lemma AllSetSplit(data: seq<bv8>, h: u32, probes: nat)
    requires |data| >= LINE && probes >= 8
    ensures AllSet(data, h, probes) <==> AllSet(data, h, 8) && AllSet(data, Step8(h), probes - 8)
  {
    EightSteps(h);
    var h8 := ProbeHash(h, 8);
    forall n: nat ensures ProbeHash(h8, n) == ProbeHash(h, 8 + n) { ProbeSum(h, 8, n); }
    if AllSet(data, h, 8) && AllSet(data, h8, probes - 8) {
      forall n: nat | 8 <= n < probes ensures ProbeSet(data, ProbeHash(h, n)) {
        assert ProbeSet(data, ProbeHash(h8, n - 8));
      }
    }
    if AllSet(data, h, probes) {
      forall n: nat | n < probes - 8 ensures ProbeSet(data, ProbeHash(h8, n)) {
        assert ProbeSet(data, ProbeHash(h, 8 + n));
      }
    }
  }

  /** The vector probe gives the answer of the scalar one. */
  method MatchVector(h2: u32, numProbes: nat, data: seq<bv8>) returns (r: bool)
    requires |data| >= LINE && numProbes < 0x8000_0000
    ensures r == AllSet(data, h2, numProbes)
  {
    var h, remProbes: nat := h2, numProbes;
    while true
      invariant remProbes <= numProbes
      invariant AllSet(data, h2, numProbes) == AllSet(data, h, remProbes)
      decreases remProbes
    {
      LanesAre(data, h, remProbes);
      var t := LanesPass(data, h, remProbes);
      if remProbes <= 8 { return t; }
      AllSetSplit(data, h, remProbes);
      if !t { return false; }
      h := Step8(h);
      remProbes := remProbes - 8;
    }
  }
}

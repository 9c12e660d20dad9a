/** Timestamps: a type in the top bits, a wrapping counter below, and a circular order. */
module Timestamp {
  import opened Options

  const U64 := 0x1_0000_0000_0000_0000

  /** The type takes one bit, or two when the `hybrid_ts` feature is on. */
  datatype Layout = Normal | Hybrid

  /** The number of counter values. */
  function Range(l: Layout): nat {
    if l.Normal? then 0x8000_0000_0000_0000 else 0x4000_0000_0000_0000
  }

  function Half(l: Layout): nat {
    if l.Normal? then 0x4000_0000_0000_0000 else 0x2000_0000_0000_0000
  }

  function Types(l: Layout): nat { if l.Normal? then 2 else 4 }

  predicate IsU64(v: int) { 0 <= v < U64 }

  /** A counter or a timestamp cut to the counter's width. */
  function Raw(l: Layout, v: int): nat {
    if l.Normal? then v % 0x8000_0000_0000_0000 else v % 0x4000_0000_0000_0000
  }

  function TypeOf(l: Layout, v: nat): nat {
    if l.Normal? then v / 0x8000_0000_0000_0000 % 2 else v / 0x4000_0000_0000_0000 % 4
  }

  function New(l: Layout, typ: nat, timestamp: nat): nat {
    (if l.Normal? then typ % 2 * 0x8000_0000_0000_0000 else typ % 4 * 0x4000_0000_0000_0000) + Raw(l, timestamp)
  }

  predicate Invalid(v: nat) { v == 0 }

  datatype Ordering = Less | Equal | Greater

  function Compare(a: int, b: int): Ordering {
    if a < b then Less else if a == b then Equal else Greater
  }

  function Flip(o: Ordering): Ordering {
    match o
    case Less => Greater
    case Equal => Equal
    case Greater => Less
  }

  /** The 64-bit difference of two counters, by its top bit within the counter's width. */
  function CmpRaw(l: Layout, x: nat, y: nat): Ordering {
    var delta := (x - y) % U64;
    if delta == 0 then Equal
    else if (if l.Normal? then delta / 0x4000_0000_0000_0000 else delta / 0x2000_0000_0000_0000) % 2 == 1 then Less
    else Greater
  }

  function Cmp(l: Layout, a: nat, b: nat): Ordering {
    if Invalid(a) || Invalid(b) then
      if Invalid(a) && Invalid(b) then Equal else if Invalid(a) then Less else Greater
    else if TypeOf(l, a) != TypeOf(l, b) then Compare(TypeOf(l, a), TypeOf(l, b))
    else CmpRaw(l, Raw(l, a), Raw(l, b))
  }

  function Normalize(l: Layout, v: nat): nat {
    if Invalid(v) then 0 else New(l, 0, Raw(l, v))
  }

  // ----- packing -----

  lemma Packed(l: Layout, typ: nat, t: nat)
    requires typ < Types(l)
    ensures IsU64(New(l, typ, t)) && TypeOf(l, New(l, typ, t)) == typ && Raw(l, New(l, typ, t)) == Raw(l, t)
  {
    match l
    case Normal =>
    case Hybrid =>
  }

  lemma Repacked(l: Layout, v: nat)
    requires v < U64
    ensures New(l, TypeOf(l, v), Raw(l, v)) == v
  {
    match l
    case Normal =>
    case Hybrid =>
  }

  /** How far `y` is past `x` on the circle of counter values. */
  function Ahead(l: Layout, x: nat, y: nat): nat
    requires x < Range(l) && y < Range(l)
  {
    if y >= x then y - x else y + Range(l) - x
  }

  lemma AheadMod(l: Layout, x: nat, y: nat)
    requires x < Range(l) && y < Range(l)
    ensures Ahead(l, x, y) == Raw(l, y - x)
  {
    match l
    case Normal =>
    case Hybrid =>
  }

  lemma SameRaw(l: Layout, v: int, turns: int)
    ensures Raw(l, v + turns * Range(l)) == Raw(l, v)
  {
    match l
    case Normal => assert v + turns * 0x8000_0000_0000_0000 == 0x8000_0000_0000_0000 * (v / 0x8000_0000_0000_0000 + turns) + Raw(l, v);
    case Hybrid => assert v + turns * 0x4000_0000_0000_0000 == 0x4000_0000_0000_0000 * (v / 0x4000_0000_0000_0000 + turns) + Raw(l, v);
  }

  lemma Distance(l: Layout, x: nat, y: nat)
    ensures Raw(l, Raw(l, y) - Raw(l, x)) == Raw(l, y - x)
  {
    match l
    case Normal =>
      SameRaw(l, y - x, x / 0x8000_0000_0000_0000 - y / 0x8000_0000_0000_0000);
    case Hybrid =>
      SameRaw(l, y - x, x / 0x4000_0000_0000_0000 - y / 0x4000_0000_0000_0000);
  }

  /** The counter bits of the difference decide the order. */
  lemma CmpRawIs(l: Layout, x: nat, y: nat)
    requires x < Range(l) && y < Range(l)
    ensures CmpRaw(l, x, y) == if x == y then Equal else if Ahead(l, x, y) <= Half(l) then Less else Greater
  {
    match l
    case Normal =>
    case Hybrid =>
  }

  /** Timestamps are compared by type and counter. */
  lemma CmpIs(l: Layout, a: nat, b: nat)
    requires a < U64 && b < U64 && !Invalid(a) && !Invalid(b) && TypeOf(l, a) == TypeOf(l, b)
    ensures Raw(l, a) < Range(l) && Raw(l, b) < Range(l)
    ensures Cmp(l, a, b) ==
      if a == b then Equal else if Ahead(l, Raw(l, a), Raw(l, b)) <= Half(l) then Less else Greater
  {
    Repacked(l, a);
    Repacked(l, b);
    RawBound(l, a);
    RawBound(l, b);
    CmpRawIs(l, Raw(l, a), Raw(l, b));
  }

  lemma RawBound(l: Layout, v: nat)
    ensures Raw(l, v) < Range(l) && Half(l) * 2 == Range(l) && Half(l) >= 4
  {
  }

  // ----- the circular order -----

  /** Valid timestamps of one type compare as their counters were issued, across the wrap, exactly
      when the distance modulo the range is at most half of it. */
  lemma IssueOrder(l: Layout, typ: nat, x: nat, y: nat)
    requires typ < Types(l) && x <= y && !Invalid(New(l, typ, x)) && !Invalid(New(l, typ, y))
    ensures Cmp(l, New(l, typ, x), New(l, typ, y)) == Compare(x, y) <==> x == y || 0 < Raw(l, y - x) <= Half(l)
  {
    var a, b := New(l, typ, x), New(l, typ, y);
    Packed(l, typ, x);
    Packed(l, typ, y);
    Repacked(l, a);
    Repacked(l, b);
    CmpIs(l, a, b);
    AheadMod(l, Raw(l, a), Raw(l, b));
    Distance(l, x, y);
  }

  /** Reading a comparison backwards flips it, except at exactly half the range: there both are less. */
  lemma AntisymmetryIff(l: Layout, a: nat, b: nat)
    requires a < U64 && b < U64
    ensures Cmp(l, a, b) == Flip(Cmp(l, b, a)) <==>
      Invalid(a) || Invalid(b) || TypeOf(l, a) != TypeOf(l, b) || Raw(l, Raw(l, b) - Raw(l, a)) != Half(l)
  {
    if !Invalid(a) && !Invalid(b) && TypeOf(l, a) == TypeOf(l, b) {
      RawBound(l, a);
      CmpIs(l, a, b);
      CmpIs(l, b, a);
      AheadMod(l, Raw(l, a), Raw(l, b));
    }
  }

  /** Valid timestamps of one type, within half the range from a base. */
  ghost predicate Window(l: Layout, typ: nat, base: nat, v: nat)
    requires base < Range(l)
  {
    RawBound(l, v);
    v < U64 && !Invalid(v) && TypeOf(l, v) == typ && Ahead(l, base, Raw(l, v)) < Half(l)
  }

  /** In a window the order is that of the distances from the base. */
  lemma WindowOrder(l: Layout, typ: nat, base: nat, a: nat, b: nat)
    requires base < Range(l) && Window(l, typ, base, a) && Window(l, typ, base, b)
    ensures Raw(l, a) < Range(l) && Raw(l, b) < Range(l)
    ensures Cmp(l, a, b) == Compare(Ahead(l, base, Raw(l, a)), Ahead(l, base, Raw(l, b)))
    ensures Cmp(l, a, b) == Equal <==> a == b
  {
    CmpIs(l, a, b);
    RawBound(l, a);
    Repacked(l, a);
    Repacked(l, b);
  }

  /** So it is a strict total order there. */
  lemma StrictTotalOrder(l: Layout, typ: nat, base: nat, a: nat, b: nat, c: nat)
    requires base < Range(l) && Window(l, typ, base, a) && Window(l, typ, base, b) && Window(l, typ, base, c)
    ensures Cmp(l, a, b) == Flip(Cmp(l, b, a)) && (Cmp(l, a, b) == Equal <==> a == b)
    ensures Cmp(l, a, b) == Less && Cmp(l, b, c) == Less ==> Cmp(l, a, c) == Less
  {
    WindowOrder(l, typ, base, a, b);
    WindowOrder(l, typ, base, b, a);
    WindowOrder(l, typ, base, b, c);
    WindowOrder(l, typ, base, a, c);
  }

  // ----- exactly where it is an order -----

  /** Valid timestamps of one type. */
  ghost predicate OneType(l: Layout, typ: nat, v: nat) {
    v < U64 && !Invalid(v) && TypeOf(l, v) == typ
  }

  /** Of three timestamps, each less than the next, the first is less than the last exactly when the two steps
      together go no further than half the range. */
  lemma TransitiveIff(l: Layout, typ: nat, a: nat, b: nat, c: nat)
    requires OneType(l, typ, a) && OneType(l, typ, b) && OneType(l, typ, c)
    requires Cmp(l, a, b) == Less && Cmp(l, b, c) == Less
    ensures Raw(l, a) < Range(l) && Raw(l, b) < Range(l) && Raw(l, c) < Range(l)
    ensures Cmp(l, a, c) == Less <==> Ahead(l, Raw(l, a), Raw(l, b)) + Ahead(l, Raw(l, b), Raw(l, c)) <= Half(l)
  {
    CmpIs(l, a, b);
    CmpIs(l, b, c);
    CmpIs(l, a, c);
    RawBound(l, a);
    Repacked(l, a);
    Repacked(l, c);
  }

  ghost predicate Flips(l: Layout, s: set<nat>) {
    forall a, b :: a in s && b in s ==> Cmp(l, a, b) == Flip(Cmp(l, b, a))
  }

  ghost predicate Transitive(l: Layout, s: set<nat>) {
    forall a, b, c :: a in s && b in s && c in s && Cmp(l, a, b) == Less && Cmp(l, b, c) == Less ==> Cmp(l, a, c) == Less
  }

  ghost predicate InWindow(l: Layout, typ: nat, base: nat, s: set<nat>)
    requires base < Range(l)
  {
    forall v :: v in s ==> Window(l, typ, base, v)
  }

  ghost predicate IsLeast(l: Layout, s: set<nat>, v: nat) {
    v in s && forall u :: u in s && u != v ==> Cmp(l, v, u) == Less
  }

  /** The lesser of a timestamp and the least of the others. */
  lemma LeastOfTwo(l: Layout, typ: nat, s: set<nat>, v: nat, u: nat) returns (w: nat)
    requires Flips(l, s) && Transitive(l, s) && (forall x :: x in s ==> OneType(l, typ, x))
    requires v in s && u in s && u != v && IsLeast(l, s - {v}, u)
    ensures IsLeast(l, s, w)
  {
    hide Cmp;
    CmpIs(l, v, u);
    assert Cmp(l, v, u) == Flip(Cmp(l, u, v));
    w := if Cmp(l, v, u) == Less then v else u;
    forall x | x in s && x != w ensures Cmp(l, w, x) == Less {
      if w == v && x != u { assert Cmp(l, u, x) == Less; }
    }
  }

  /** A finite set on which the comparison is an order has a least element. */
  lemma {:induction false} HasLeast(l: Layout, typ: nat, s: set<nat>) returns (w: nat)
    requires s != {} && Flips(l, s) && Transitive(l, s) && forall u :: u in s ==> OneType(l, typ, u)
    ensures IsLeast(l, s, w)
  {
    hide Cmp, OneType;
    var v :| v in s;
    if s - {v} == {} {
      assert forall x :: x in s && x != v ==> x in s - {v};
      return v;
    }
    var u := HasLeast(l, typ, s - {v});
    w := LeastOfTwo(l, typ, s, v, u);
  }

  /** The comparison is an order on a set of timestamps of one type exactly when they all lie within half the
      range from some base; the least of them is one. */
  lemma OrderIffWindow(l: Layout, typ: nat, s: set<nat>)
    requires forall u :: u in s ==> OneType(l, typ, u)
    ensures Flips(l, s) && Transitive(l, s) <==> exists base: nat :: base < Range(l) && InWindow(l, typ, base, s)
  {
    if base: nat :| base < Range(l) && InWindow(l, typ, base, s) {
      forall a, b, c | a in s && b in s && c in s
        ensures Cmp(l, a, b) == Flip(Cmp(l, b, a))
        ensures Cmp(l, a, b) == Less && Cmp(l, b, c) == Less ==> Cmp(l, a, c) == Less
      {
        StrictTotalOrder(l, typ, base, a, b, c);
      }
    }
    if Flips(l, s) && Transitive(l, s) {
      RawBound(l, 0);
      if s == {} {
        assert InWindow(l, typ, 0, s);
      } else {
        var v := HasLeast(l, typ, s);
        LeastIsBase(l, typ, s, v);
      }
    }
  }

  lemma LeastIsBase(l: Layout, typ: nat, s: set<nat>, v: nat)
    requires Flips(l, s) && IsLeast(l, s, v) && forall u :: u in s ==> OneType(l, typ, u)
    ensures Raw(l, v) < Range(l) && InWindow(l, typ, Raw(l, v), s)
  {
    RawBound(l, v);
    forall u | u in s ensures Window(l, typ, Raw(l, v), u) {
      CmpIs(l, v, u);
      CmpIs(l, u, v);
      assert Cmp(l, v, u) == Flip(Cmp(l, u, v));
    }
  }

  /** Beyond a window it is not transitive. */
  lemma NotTransitive(l: Layout) returns (a: nat, b: nat, c: nat)
    ensures TypeOf(l, a) == TypeOf(l, b) == TypeOf(l, c) == 0
    ensures Cmp(l, a, b) == Cmp(l, b, c) == Cmp(l, c, a) == Less
  {
    a, b, c := 1, 0x1000_0000_0000_0001, 0x2800_0000_0000_0001;
    if l.Normal? { b, c := 0x2000_0000_0000_0001, 0x5000_0000_0000_0001; }
    CmpIs(l, a, b);
    CmpIs(l, b, c);
    CmpIs(l, c, a);
  }

  /** The invalid timestamp comes first. */
  lemma InvalidFirst(l: Layout, b: nat)
    ensures Cmp(l, 0, b) == if Invalid(b) then Equal else Less
    ensures Cmp(l, b, 0) == if Invalid(b) then Equal else Greater
  {
  }

  /** Normalizing gives the commit timestamp of the same counter; a counter of 0 has none. */
  lemma Normalized(l: Layout, v: nat)
    requires v < U64 && !Invalid(v)
    ensures TypeOf(l, Normalize(l, v)) == 0 && Raw(l, Normalize(l, v)) == Raw(l, v)
    ensures Invalid(Normalize(l, v)) <==> Raw(l, v) == 0
  {
    RawBound(l, v);
    Packed(l, 0, Raw(l, v));
  }

  // ----- stepping -----

  /** The counter that follows, where the first type has no counter 0. */
  function Following(l: Layout, typ: nat, raw: nat): nat {
    if raw + 1 < Range(l) then raw + 1 else if typ == 0 then 1 else 0
  }

  /** The next value of the same type that is not the invalid one. */
  function Succ(l: Layout, v: nat): nat {
    New(l, TypeOf(l, v), Following(l, TypeOf(l, v), Raw(l, v)))
  }

  function Pred(l: Layout, v: nat): nat {
    var typ, raw := TypeOf(l, v), Raw(l, v);
    if raw > 1 || (raw == 1 && typ != 0) then New(l, typ, raw - 1) else New(l, typ, Range(l) - 1)
  }

  /** A new timestamp is invalid only for the first type and a counter that is 0 in its width. */
  lemma InvalidNew(l: Layout, typ: nat, t: nat)
    requires typ < Types(l)
    ensures Invalid(New(l, typ, t)) <==> typ == 0 && Raw(l, t) == 0
  {
    Packed(l, typ, t);
  }

  lemma TypeBound(l: Layout, v: nat)
    ensures TypeOf(l, v) < Types(l)
  {
  }

  /** The width of the counter hides the 64-bit wrap. */
  lemma Wraps(l: Layout, typ: nat)
    ensures New(l, typ, Range(l)) == New(l, typ, 0) && New(l, typ, U64 - 1) == New(l, typ, Range(l) - 1)
    ensures Raw(l, Range(l)) == 0 && Raw(l, Range(l) + 1) == 1 && New(l, typ, Range(l) + 1) == New(l, typ, 1)
    ensures Raw(l, U64 - 1) == Range(l) - 1
  {
    match l
    case Normal =>
    case Hybrid =>
  }

  method Inc(l: Layout, v: nat) returns (r: nat)
    requires v < U64
    ensures r == Succ(l, v) && !Invalid(r)
  {
    var typ, xid := TypeOf(l, v), Raw(l, v);
    TypeBound(l, v);
    RawBound(l, v);
    Wraps(l, typ);
    ghost var rounds := 2;
    while true
      invariant rounds == 2 ==> xid == Raw(l, v)
      invariant rounds == 1 ==> xid == Range(l) && Raw(l, v) + 1 == Range(l) && typ == 0
      invariant 1 <= rounds <= 2
      decreases rounds
    {
      xid := (xid + 1) % U64;
      InvalidNew(l, typ, xid);
      if !Invalid(New(l, typ, xid)) { break; }
      rounds := rounds - 1;
    }
    r := New(l, typ, xid);
  }

  method Dec(l: Layout, v: nat) returns (r: nat)
    requires v < U64
    ensures r == Pred(l, v) && !Invalid(r)
  {
    var typ, xid := TypeOf(l, v), Raw(l, v);
    TypeBound(l, v);
    RawBound(l, v);
    Wraps(l, typ);
    ghost var rounds := 2;
    while true
      invariant rounds == 2 ==> xid == Raw(l, v)
      invariant rounds == 1 ==> xid == 0 && Raw(l, v) == 1 && typ == 0
      invariant 1 <= rounds <= 2
      decreases rounds
    {
      xid := (xid - 1) % U64;
      InvalidNew(l, typ, xid);
      if !Invalid(New(l, typ, xid)) { break; }
      rounds := rounds - 1;
    }
    r := New(l, typ, xid);
  }

  lemma NewFields(l: Layout, typ: nat, t: nat)
    requires typ < Types(l) && t < Range(l) && (typ == 0 ==> t != 0)
    ensures New(l, typ, t) < U64 && TypeOf(l, New(l, typ, t)) == typ && Raw(l, New(l, typ, t)) == t
    ensures !Invalid(New(l, typ, t))
  {
    Packed(l, typ, t);
    InvalidNew(l, typ, t);
    assert Raw(l, t) == t;
  }

  lemma SuccFields(l: Layout, v: nat)
    requires v < U64
    ensures Succ(l, v) < U64 && TypeOf(l, Succ(l, v)) == TypeOf(l, v)
    ensures Raw(l, Succ(l, v)) == Following(l, TypeOf(l, v), Raw(l, v)) && !Invalid(Succ(l, v))
  {
    TypeBound(l, v);
    RawBound(l, v);
    NewFields(l, TypeOf(l, v), Following(l, TypeOf(l, v), Raw(l, v)));
  }

  /** Stepping forward goes up, and stepping back undoes it. */
  lemma SuccIsNext(l: Layout, v: nat)
    requires v < U64 && !Invalid(v)
    ensures Cmp(l, v, Succ(l, v)) == Less && Cmp(l, Succ(l, v), v) == Greater
    ensures TypeOf(l, Succ(l, v)) == TypeOf(l, v) && Pred(l, Succ(l, v)) == v
  {
    RawBound(l, v);
    SuccFields(l, v);
    CmpIs(l, v, Succ(l, v));
    CmpIs(l, Succ(l, v), v);
    SuccPred(l, v);
  }

  lemma SuccPred(l: Layout, v: nat)
    requires v < U64 && !Invalid(v)
    ensures Pred(l, Succ(l, v)) == v
  {
    RawBound(l, v);
    TypeBound(l, v);
    SuccFields(l, v);
    Repacked(l, v);
    InvalidNew(l, TypeOf(l, v), Raw(l, v));
  }
}

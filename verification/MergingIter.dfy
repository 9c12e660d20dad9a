/** The k-way merge that feeds a compaction. */
module MergingIter {
  import opened Options
  import opened Files

  /** An input iterator: its timestamp (0 is the invalid one) and the pairs it has still to give. */
  datatype Source = Source(ts: nat, run: Run)

  datatype Item = Item(ts: nat, pair: Pair)

  ghost predicate AllAscending(ss: seq<Source>) {
    forall i :: 0 <= i < |ss| ==> Ascending(ss[i].run)
  }

  // ----- which value a key has -----

  /** Between two values of one key the strictly newer one wins; the invalid timestamp never does. */
  function Newer(a: Option<Item>, b: Item): Option<Item> {
    if a.None? then Some(b)
    else if b.ts != 0 && a.value.ts < b.ts then Some(b) else a
  }

  /** The item for a key, over the sources from the first to the last. */
  function Best(acc: Option<Item>, ss: seq<Source>, k: Key): Option<Item>
    decreases |ss|
  {
    if ss == [] then acc
    else
      var v := Find(ss[0].run, k);
      Best(if v.Some? then Newer(acc, Item(ss[0].ts, Pair(k, v.value))) else acc, ss[1..], k)
  }

  function ValueOf(a: Option<Item>): Option<Value> {
    if a.Some? then Some(a.value.pair.value) else None
  }

  predicate Has(s: Source, k: Key) {
    Find(s.run, k).Some?
  }

  /** The item found has the greatest timestamp, and of the sources with that one it is from the first. */
  lemma {:induction false} BestIsGreatest(ss: seq<Source>, k: Key) returns (i: nat)
    ensures Best(None, ss, k).None? <==> forall j :: 0 <= j < |ss| ==> !Has(ss[j], k)
    ensures Best(None, ss, k).Some? ==>
      && i < |ss| && Find(ss[i].run, k) == ValueOf(Best(None, ss, k))
      && forall j :: 0 <= j < |ss| && Has(ss[j], k) ==> ss[j].ts <= ss[i].ts && (j < i ==> ss[j].ts < ss[i].ts)
  {
    i := BestFrom(None, ss, k, ss, 0);
  }

  /** The fold from position `n` on, when `acc` is the best of the sources before. */
  lemma {:induction false} BestFrom(acc: Option<Item>, ss: seq<Source>, k: Key, all: seq<Source>, n: nat) returns (i: nat)
    requires n <= |all| && ss == all[n..]
    requires acc.None? ==> forall j :: 0 <= j < n ==> !Has(all[j], k)
    requires acc.Some? ==> exists i: nat :: IsBest(acc.value, all[..n], k, i)
    ensures Best(acc, ss, k).None? ==> forall j :: 0 <= j < |all| ==> !Has(all[j], k)
    ensures Best(acc, ss, k).Some? ==> IsBest(Best(acc, ss, k).value, all, k, i)
    decreases |ss|
  {
    if ss == [] {
      assert all[..n] == all;
      if acc.Some? { i :| IsBest(acc.value, all[..n], k, i); } else { i := 0; }
    } else {
      var s := ss[0];
      var acc' := if Has(s, k) then Newer(acc, Item(s.ts, Pair(k, Find(s.run, k).value))) else acc;
      assert all[..n + 1] == all[..n] + [s];
      if acc'.Some? {
        if acc.Some? {
          var m: nat :| IsBest(acc.value, all[..n], k, m);
          assert IsBest(acc'.value, all[..n + 1], k, if acc' == acc then m else n);
        } else {
          assert IsBest(acc'.value, all[..n + 1], k, n);
        }
      }
      i := BestFrom(acc', ss[1..], k, all, n + 1);
    }
  }

  ghost predicate IsBest(b: Item, ss: seq<Source>, k: Key, i: nat) {
    && i < |ss| && b.ts == ss[i].ts && b.pair.key == k && Find(ss[i].run, k) == Some(b.pair.value)
    && forall j :: 0 <= j < |ss| && Has(ss[j], k) ==> ss[j].ts <= ss[i].ts && (j < i ==> ss[j].ts < ss[i].ts)
  }

  // ----- the order in which the merge takes pairs -----

  predicate AllEmpty(ss: seq<Source>) {
    forall i :: 0 <= i < |ss| ==> ss[i].run == []
  }

  /** The first of the sources whose next key is least. */
  ghost predicate IsSmallest(ss: seq<Source>, i: nat) {
    && i < |ss| && ss[i].run != []
    && forall j :: 0 <= j < |ss| && ss[j].run != [] ==>
         ss[i].run[0].key <= ss[j].run[0].key && (j < i ==> ss[i].run[0].key < ss[j].run[0].key)
  }

  function Smallest(ss: seq<Source>): nat
    requires !AllEmpty(ss)
    ensures IsSmallest(ss, Smallest(ss))
  {
    var n := |ss| - 1;
    if AllEmpty(ss[..n]) then n
    else
      var m := Smallest(ss[..n]);
      assert ss[..n][m] == ss[m];
      assert forall j :: 0 <= j < n ==> ss[..n][j] == ss[j];
      if ss[n].run != [] && ss[n].run[0].key < ss[m].run[0].key then n else m
  }

  function Total(ss: seq<Source>): nat {
    if ss == [] then 0 else |ss[0].run| + Total(ss[1..])
  }

  lemma {:induction false} TotalPop(ss: seq<Source>, i: nat)
    requires i < |ss| && ss[i].run != []
    ensures Total(Pop(ss, i)) == Total(ss) - 1
  {
    if i > 0 {
      assert Pop(ss, i)[1..] == Pop(ss[1..], i - 1);
      TotalPop(ss[1..], i - 1);
    }
  }

  function Pop(ss: seq<Source>, i: nat): seq<Source>
    requires i < |ss| && ss[i].run != []
  {
    ss[i := Source(ss[i].ts, ss[i].run[1..])]
  }

  /** All pairs in the order taken: by key, equal keys in the order of the sources. */
  function Drain(ss: seq<Source>): seq<Item>
    decreases Total(ss)
  {
    if AllEmpty(ss) then []
    else
      var i := Smallest(ss);
      TotalPop(ss, i);
      [Item(ss[i].ts, ss[i].run[0])] + Drain(Pop(ss, i))
  }

  ghost predicate Nondecreasing(items: seq<Item>) {
    items != [] ==> (forall x :: x in items[1..] ==> items[0].pair.key <= x.pair.key) && Nondecreasing(items[1..])
  }

  /** No source has a key below `lo`. */
  ghost predicate AtLeast(ss: seq<Source>, lo: Key) {
    forall i, p :: 0 <= i < |ss| && p in ss[i].run ==> lo <= p.key
  }

  lemma {:induction false} DrainAtLeast(ss: seq<Source>, lo: Key)
    requires AtLeast(ss, lo)
    ensures forall x :: x in Drain(ss) ==> lo <= x.pair.key
    decreases Total(ss)
  {
    if !AllEmpty(ss) {
      var i := Smallest(ss);
      TotalPop(ss, i);
      assert ss[i].run[0] in ss[i].run;
      DrainAtLeast(Pop(ss, i), lo);
    }
  }

  lemma SmallestAtLeast(ss: seq<Source>, i: nat)
    requires AllAscending(ss) && IsSmallest(ss, i)
    ensures AtLeast(Pop(ss, i), ss[i].run[0].key) && AllAscending(Pop(ss, i))
  {
    var ss' := Pop(ss, i);
    forall j, p | 0 <= j < |ss'| && p in ss'[j].run ensures ss[i].run[0].key <= p.key {
      assert p in ss[j].run;
      var n :| 0 <= n < |ss[j].run| && ss[j].run[n] == p;
    }
  }

  lemma {:induction false} DrainSorted(ss: seq<Source>)
    requires AllAscending(ss)
    ensures Nondecreasing(Drain(ss))
    decreases Total(ss)
  {
    if !AllEmpty(ss) {
      var i := Smallest(ss);
      TotalPop(ss, i);
      SmallestAtLeast(ss, i);
      DrainAtLeast(Pop(ss, i), ss[i].run[0].key);
      DrainSorted(Pop(ss, i));
      assert Drain(ss)[1..] == Drain(Pop(ss, i));
    }
  }

  // ----- the values in the drained order -----

  function BestItem(acc: Option<Item>, items: seq<Item>, k: Key): Option<Item>
    decreases |items|
  {
    if items == [] then acc
    else BestItem(if items[0].pair.key == k then Newer(acc, items[0]) else acc, items[1..], k)
  }

  lemma {:induction false} BestSkip(acc: Option<Item>, ss: seq<Source>, k: Key)
    requires forall i :: 0 <= i < |ss| ==> !Has(ss[i], k)
    ensures Best(acc, ss, k) == acc
  {
    if ss != [] { BestSkip(acc, ss[1..], k); }
  }

  lemma {:induction false} BestAppend(acc: Option<Item>, a: seq<Source>, b: seq<Source>, k: Key)
    ensures Best(acc, a + b, k) == Best(Best(acc, a, k), b, k)
    decreases |a|
  {
    if a == [] {
      assert a + b == b;
    } else {
      assert (a + b)[1..] == a[1..] + b;
      BestAppend(if Has(a[0], k) then Newer(acc, Item(a[0].ts, Pair(k, Find(a[0].run, k).value))) else acc, a[1..], b, k);
    }
  }

  lemma BestCons(acc: Option<Item>, s: Source, rest: seq<Source>, k: Key)
    ensures Best(acc, [s] + rest, k) ==
      Best(if Has(s, k) then Newer(acc, Item(s.ts, Pair(k, Find(s.run, k).value))) else acc, rest, k)
  {
    assert ([s] + rest)[1..] == rest;
  }

  /** A source not popped yet has no key below its next one. */
  lemma NotBelow(s: Source, k: Key)
    requires Ascending(s.run) && (s.run == [] || k < s.run[0].key)
    ensures !Has(s, k)
  {
    FindIn(s.run, k);
  }

  /** Taking the smallest pair out of the sources and folding it first changes no result. */
  lemma PopBest(acc: Option<Item>, ss: seq<Source>, i: nat, k: Key)
    requires AllAscending(ss) && IsSmallest(ss, i)
    ensures
      var item := Item(ss[i].ts, ss[i].run[0]);
      Best(acc, ss, k) == Best(if item.pair.key == k then Newer(acc, item) else acc, Pop(ss, i), k)
  {
    var item := Item(ss[i].ts, ss[i].run[0]);
    var s, t := ss[i], Source(ss[i].ts, ss[i].run[1..]);
    var a, b := ss[..i], ss[i + 1..];
    var acc' := if item.pair.key == k then Newer(acc, item) else acc;
    assert ss == a + ([s] + b) && Pop(ss, i) == a + ([t] + b);
    BestAppend(acc, a, [s] + b, k);
    BestAppend(acc', a, [t] + b, k);
    BestCons(Best(acc, a, k), s, b, k);
    BestCons(Best(acc', a, k), t, b, k);
    if item.pair.key == k {
      forall j | 0 <= j < i ensures !Has(a[j], k) { NotBelow(ss[j], k); }
      BestSkip(acc, a, k);
      BestSkip(acc', a, k);
      FindIn(t.run, k);
      assert !Has(t, k) && Find(s.run, k) == Some(item.pair.value);
    } else {
      assert Find(s.run, k) == Find(t.run, k);
    }
  }

  lemma {:induction false} DrainBest(acc: Option<Item>, ss: seq<Source>, k: Key)
    requires AllAscending(ss)
    ensures BestItem(acc, Drain(ss), k) == Best(acc, ss, k)
    decreases Total(ss)
  {
    if AllEmpty(ss) {
      BestSkip(acc, ss, k);
    } else {
      var i := Smallest(ss);
      var item := Item(ss[i].ts, ss[i].run[0]);
      TotalPop(ss, i);
      SmallestAtLeast(ss, i);
      PopBest(acc, ss, i, k);
      assert Drain(ss)[1..] == Drain(Pop(ss, i));
      DrainBest(if item.pair.key == k then Newer(acc, item) else acc, Pop(ss, i), k);
    }
  }

  // ----- one pair per key -----

  /** What the iterator returns when it holds `cur` and has `items` to come. */
  function Fold(cur: Item, items: seq<Item>): Run
    decreases |items|
  {
    if items == [] then [cur.pair]
    else if items[0].pair.key == cur.pair.key then Fold(Newer(Some(cur), items[0]).value, items[1..])
    else [cur.pair] + Fold(items[0], items[1..])
  }

  function Dedup(items: seq<Item>): Run {
    if items == [] then [] else Fold(items[0], items[1..])
  }

  lemma {:induction false} FoldAscending(cur: Item, items: seq<Item>)
    requires Nondecreasing([cur] + items)
    ensures Ascending(Fold(cur, items)) && forall p :: p in Fold(cur, items) ==> cur.pair.key <= p.key
    decreases |items|
  {
    assert ([cur] + items)[1..] == items;
    if items != [] {
      var x := items[0];
      assert x in items;
      assert items == [x] + items[1..];
      if x.pair.key == cur.pair.key {
        var y := Newer(Some(cur), x).value;
        assert ([y] + items[1..])[1..] == items[1..];
        FoldAscending(y, items[1..]);
      } else {
        FoldAscending(x, items[1..]);
      }
    }
  }

  lemma {:induction false} BestItemSkip(acc: Option<Item>, items: seq<Item>, k: Key)
    requires forall x :: x in items ==> x.pair.key != k
    ensures BestItem(acc, items, k) == acc
  {
    if items != [] { BestItemSkip(acc, items[1..], k); }
  }

  lemma {:induction false} FoldFind(cur: Item, items: seq<Item>, k: Key)
    requires Nondecreasing([cur] + items)
    ensures Find(Fold(cur, items), k) == ValueOf(BestItem(if cur.pair.key == k then Some(cur) else None, items, k))
    decreases |items|
  {
    assert ([cur] + items)[1..] == items;
    if items != [] {
      var x := items[0];
      assert x in items;
      assert items == [x] + items[1..];
      if x.pair.key == cur.pair.key {
        var y := Newer(Some(cur), x).value;
        assert ([y] + items[1..])[1..] == items[1..];
        FoldFind(y, items[1..], k);
      } else {
        FoldFind(x, items[1..], k);
        var rest := Fold(x, items[1..]);
        assert ([cur.pair] + rest)[1..] == rest;
        if cur.pair.key == k {
          forall z | z in items ensures z.pair.key != k { assert z == x || z in items[1..]; }
          BestItemSkip(Some(cur), items, k);
        }
      }
    }
  }

  /** The merge returns each key of its sources once, in ascending order, with its best value. */
  lemma MergedRun(ss: seq<Source>, k: Key)
    requires AllAscending(ss)
    ensures Ascending(Dedup(Drain(ss)))
    ensures Find(Dedup(Drain(ss)), k) == ValueOf(Best(None, ss, k))
  {
    var items := Drain(ss);
    DrainSorted(ss);
    DrainBest(None, ss, k);
    if items != [] {
      assert items == [items[0]] + items[1..];
      FoldAscending(items[0], items[1..]);
      FoldFind(items[0], items[1..], k);
    }
  }

  lemma FoldNext(cur: Item, x: Item, rest: seq<Item>)
    ensures Fold(cur, [x] + rest) ==
      if x.pair.key == cur.pair.key then Fold(Newer(Some(cur), x).value, rest) else [cur.pair] + Fold(x, rest)
  {
    assert ([x] + rest)[1..] == rest;
  }

  lemma DedupFirst(x: Item, rest: seq<Item>)
    ensures Dedup([x] + rest) == Fold(x, rest)
  {
    assert ([x] + rest)[1..] == rest;
  }

  // ----- the iterator -----

  /** A source with the pair that was already taken from it. */
  function Held(s: Source, pair: Option<Pair>): Source {
    if pair.Some? then Source(s.ts, [pair.value] + s.run) else s
  }

  function AllHeld(iters: seq<Source>, current: seq<Option<Pair>>): (ss: seq<Source>)
    requires |iters| == |current|
    ensures |ss| == |iters| && forall i :: 0 <= i < |iters| ==> ss[i] == Held(iters[i], current[i])
  {
    seq(|iters|, i requires 0 <= i < |iters| => Held(iters[i], current[i]))
  }

  lemma OnlySmallest(ss: seq<Source>, i: nat, j: nat)
    requires IsSmallest(ss, i) && IsSmallest(ss, j)
    ensures i == j
  {
  }

  /** The search for the smallest goes on to one more source. */
  lemma SmallestNext(ss: seq<Source>, i: nat, m: Option<nat>, m': Option<nat>)
    requires i < |ss|
    requires m.None? ==> AllEmpty(ss[..i])
    requires m.Some? ==> m.value < i && IsSmallest(ss[..i], m.value)
    requires m' == if ss[i].run != [] && (m.None? || ss[i].run[0].key < ss[m.value].run[0].key) then Some(i) else m
    ensures m'.None? ==> AllEmpty(ss[..i + 1])
    ensures m'.Some? ==> m'.value < i + 1 && IsSmallest(ss[..i + 1], m'.value)
  {
    assert forall j :: 0 <= j < i ==> ss[..i][j] == ss[j];
  }

  class MergingIter {
    var iters: seq<Source>
    var current: seq<Option<Pair>>
    var currentPair: Option<Item>
    var done: bool
    var drained: seq<bool>

    ghost predicate Valid()
      reads this
    {
      && |iters| == |current| == |drained|
      && (forall i :: 0 <= i < |iters| && drained[i] ==> current[i].None? && iters[i].run == [])
      && (done ==> currentPair.None? && forall i :: 0 <= i < |iters| ==> drained[i])
    }

    /** What is left of every source, with the pair already taken from it. */
    ghost function Pending(): seq<Source>
      requires Valid()
      reads this
    {
      AllHeld(iters, current)
    }

    /** What `Next` has still to return. */
    ghost function Remaining(): Run
      requires Valid()
      reads this
    {
      if currentPair.Some? then Fold(currentPair.value, Drain(Pending())) else Dedup(Drain(Pending()))
    }

    constructor (iters: seq<Source>)
      ensures Valid() && Remaining() == Dedup(Drain(iters))
    {
      this.iters := iters;
      current := seq(|iters|, _ => None);
      currentPair := None;
      done := false;
      drained := seq(|iters|, _ => false);
      new;
      assert AllHeld(this.iters, current) == iters;
    }

    /** Gives a source its next pair, unless it holds one or has none. */
    method Refill(i: nat)
      requires Valid() && !done && i < |iters| && !drained[i]
      modifies this
      ensures Valid() && !done && currentPair == old(currentPair) && |iters| == old(|iters|)
      ensures Pending() == old(Pending())
      ensures forall j :: 0 <= j < |iters| && j != i ==> current[j] == old(current[j]) && drained[j] == old(drained[j])
      ensures if Pending()[i].run == [] then current[i].None? && drained[i] else current[i] == Some(Pending()[i].run[0])
    {
      if current[i].None? {
        if iters[i].run != [] {
          var pair := iters[i].run[0];
          assert [pair] + iters[i].run[1..] == iters[i].run;
          current := current[i := Some(pair)];
          iters := iters[i := Source(iters[i].ts, iters[i].run[1..])];
        }
      }
      if current[i].None? { drained := drained[i := true]; }
    }

    /** Takes the smallest pair from the first source that has it. */
    method NextWithTimestamp() returns (r: Option<Item>)
      requires Valid() && !done
      modifies this
      ensures Valid() && !done && currentPair == old(currentPair)
      ensures r.None? ==> Drain(old(Pending())) == [] && Drain(Pending()) == [] && forall i :: 0 <= i < |drained| ==> drained[i]
      ensures r.Some? ==> Drain(old(Pending())) == [r.value] + Drain(Pending())
    {
      ghost var ss := Pending();
      var smallest: Option<nat> := None;
      for i := 0 to |current|
        invariant Valid() && !done && currentPair == old(currentPair)
        invariant |current| == old(|current|) && Pending() == ss
        invariant forall j :: 0 <= j < i ==> if ss[j].run == [] then drained[j] else current[j] == Some(ss[j].run[0])
        invariant smallest.None? ==> AllEmpty(ss[..i])
        invariant smallest.Some? ==> smallest.value < i && IsSmallest(ss[..i], smallest.value)
      {
        ghost var before := smallest;
        if !drained[i] {
          Refill(i);
          if current[i].Some? {
            if smallest.Some? {
              assert ss[..i][smallest.value] == ss[smallest.value];
              if current[i].value.key < current[smallest.value].value.key { smallest := Some(i); }
            } else {
              smallest := Some(i);
            }
          }
        }
        SmallestNext(ss, i, before, smallest);
      }
      assert ss[..|current|] == ss;
      if smallest.Some? {
        var i := smallest.value;
        OnlySmallest(ss, i, Smallest(ss));
        r := Some(Item(iters[i].ts, current[i].value));
        assert ([current[i].value] + iters[i].run)[1..] == iters[i].run;
        current := current[i := None];
        assert Pending() == Pop(ss, i);
      } else {
        r := None;
      }
    }

    /** One round of the loop in `Next`: the pair held is returned, or it meets another one of its key. */
    method Advance(last: Item) returns (r: Option<Pair>)
      requires Valid() && !done && currentPair.None?
      modifies this
      ensures Valid() && !done
      ensures r.Some? ==> Fold(last, old(Drain(Pending()))) == [r.value] + Remaining()
      ensures r.None? ==> currentPair.Some? && Fold(last, old(Drain(Pending()))) == Remaining()
      ensures r.None? ==> |Drain(Pending())| < old(|Drain(Pending())|)
    {
      var next := NextWithTimestamp();
      if next.None? { return Some(last.pair); }
      var x := next.value;
      FoldNext(last, x, Drain(Pending()));
      if x.pair.key == last.pair.key {
        // discard the older one
        if x.ts != 0 && last.ts < x.ts { currentPair := Some(x); } else { currentPair := Some(last); }
        r := None;
      } else {
        currentPair := Some(x);
        r := Some(last.pair);
      }
    }

    /** The next key with its best value. */
    method Next() returns (r: Option<Pair>)
      requires Valid()
      modifies this
      ensures Valid()
      ensures r.Some? ==> old(Remaining()) == [r.value] + Remaining()
      ensures r.None? ==> old(Remaining()) == [] && Remaining() == [] && done
    {
      if done {
        assert Remaining() == [];
        return None;
      }
      ghost var whole := Remaining();
      if currentPair.None? {
        var first := NextWithTimestamp();
        currentPair := first;
        if first.None? {
          done := true;
          return None;
        }
        DedupFirst(first.value, Drain(Pending()));
      }
      r := None;
      while r.None?
        invariant Valid()
        invariant r.None? ==> !done && currentPair.Some? && Remaining() == whole
        invariant r.Some? ==> whole == [r.value] + Remaining()
        decreases if r.None? then 1 else 0, |Drain(Pending())|
      {
        var last := currentPair.value;
        currentPair := None;
        r := Advance(last);
      }
    }
  }
}

/** Merging added files into a level and dropping deleted ones, as the version builder does. */
module Levels {
  import opened Options
  import opened Files

  /** The order of files in a level: level 0 by descending `min_xip`, the others by infimum. */
  predicate Before(level: nat, a: File, b: File) {
    if level == 0 then a.minXip > b.minXip else a.inf < b.inf
  }

  ghost predicate Ordered(level: nat, fs: seq<File>) {
    fs != [] ==> (forall g :: g in fs[1..] ==> !Before(level, g, fs[0])) && Ordered(level, fs[1..])
  }

  /** Two-way merge; on a tie the second list goes first. */
  function Merge(level: nat, a: seq<File>, b: seq<File>): seq<File>
    decreases |a| + |b|
  {
    if a == [] then b
    else if b == [] then a
    else if Before(level, a[0], b[0]) then [a[0]] + Merge(level, a[1..], b)
    else [b[0]] + Merge(level, a, b[1..])
  }

  lemma {:induction false} MergeIn(level: nat, a: seq<File>, b: seq<File>, f: File)
    ensures f in Merge(level, a, b) <==> f in a || f in b
    decreases |a| + |b|
  {
    if a != [] && b != [] {
      if Before(level, a[0], b[0]) { MergeIn(level, a[1..], b, f); } else { MergeIn(level, a, b[1..], f); }
    }
  }

  lemma {:induction false} OkOrdered(level: nat, fs: seq<File>)
    requires LevelOk(level, fs)
    ensures Ordered(level, fs)
  {
    if fs != [] {
      assert forall g :: g in fs[1..] ==> g in fs;
      assert fs[0] in fs && FileOk(fs[0]);
      OkOrdered(level, fs[1..]);
    }
  }

  /** If `x` goes before the head of an ordered list, it goes before the head of what is left of it. */
  lemma BeforeRest(level: nat, x: File, fs: seq<File>, refs: set<nat>)
    requires fs != [] && Ordered(level, fs) && Before(level, x, fs[0]) && Remove(fs, refs) != []
    ensures Before(level, x, Remove(fs, refs)[0])
  {
    RemoveIn(fs, refs, Remove(fs, refs)[0]);
    assert fs == [fs[0]] + fs[1..];
  }

  /** Deleting from the merged list is merging into the list already pruned. */
  lemma {:induction false} MergeRemove(level: nat, a: seq<File>, b: seq<File>, refs: set<nat>)
    requires Ordered(level, b) && forall f :: f in a ==> f.ref !in refs
    ensures Remove(Merge(level, a, b), refs) == Merge(level, a, Remove(b, refs))
    decreases |a| + |b|
  {
    if a == [] {
    } else if b == [] {
      RemoveNone(a, refs);
    } else if Before(level, a[0], b[0]) {
      MergeRemove(level, a[1..], b, refs);
      assert Merge(level, a, b)[1..] == Merge(level, a[1..], b);
      if Remove(b, refs) == [] {
        assert [a[0]] + a[1..] == a;
      } else {
        BeforeRest(level, a[0], b, refs);
      }
    } else {
      MergeRemove(level, a, b[1..], refs);
      assert Merge(level, a, b)[1..] == Merge(level, a, b[1..]);
      if b[0].ref !in refs {
        assert Remove(b, refs) == [b[0]] + Remove(b[1..], refs);
        assert Remove(b, refs)[1..] == Remove(b[1..], refs);
      }
    }
  }

  /** A list that goes before another entirely stays in front. */
  lemma {:induction false} MergeFront(level: nat, a: seq<File>, b: seq<File>)
    requires forall f, g :: f in a && g in b ==> Before(level, f, g)
    ensures Merge(level, a, b) == a + b
  {
    if a != [] && b != [] {
      MergeFront(level, a[1..], b);
      assert a == [a[0]] + a[1..];
    } else if a == [] {
      assert a + b == b;
    } else {
      assert a + b == a;
    }
  }

  ghost predicate AllApart(a: seq<File>, b: seq<File>) {
    forall f, g :: f in a && g in b ==> Apart(f, g)
  }

  ghost predicate AllNew(a: seq<File>, b: seq<File>) {
    forall f, g :: f in a && g in b ==> f.ref != g.ref
  }

  ghost predicate FilesOk(fs: seq<File>) {
    forall f :: f in fs ==> FileOk(f)
  }

  /** Disjoint sorted lists merge into a sorted list. */
  lemma {:induction false} MergeSorted(level: nat, a: seq<File>, b: seq<File>)
    requires level > 0 && FilesOk(a) && FilesOk(b) && Sorted(a) && Sorted(b) && AllApart(a, b)
    ensures Sorted(Merge(level, a, b))
    decreases |a| + |b|
  {
    if a != [] && b != [] {
      assert a[0] in a && b[0] in b;
      assert FileOk(a[0]) && FileOk(b[0]) && Apart(a[0], b[0]);
      assert forall f :: f in a[1..] ==> f in a && FileOk(f);
      assert forall f :: f in b[1..] ==> f in b && FileOk(f);
      if Before(level, a[0], b[0]) {
        MergeSorted(level, a[1..], b);
        forall g | g in Merge(level, a[1..], b) ensures a[0].sup < g.inf {
          MergeIn(level, a[1..], b, g);
        }
        assert Merge(level, a, b)[1..] == Merge(level, a[1..], b);
      } else {
        MergeSorted(level, a, b[1..]);
        forall g | g in Merge(level, a, b[1..]) ensures b[0].sup < g.inf {
          MergeIn(level, a, b[1..], g);
        }
        assert Merge(level, a, b)[1..] == Merge(level, a, b[1..]);
      }
    }
  }

  lemma {:induction false} MergeDistinct(level: nat, a: seq<File>, b: seq<File>)
    requires DistinctRefs(a) && DistinctRefs(b) && AllNew(a, b)
    ensures DistinctRefs(Merge(level, a, b))
    decreases |a| + |b|
  {
    if a != [] && b != [] {
      assert a[0] in a && b[0] in b;
      if Before(level, a[0], b[0]) {
        MergeDistinct(level, a[1..], b);
        forall g | g in Merge(level, a[1..], b) ensures a[0].ref != g.ref { MergeIn(level, a[1..], b, g); }
        assert Merge(level, a, b)[1..] == Merge(level, a[1..], b);
      } else {
        MergeDistinct(level, a, b[1..]);
        forall g | g in Merge(level, a, b[1..]) ensures b[0].ref != g.ref { MergeIn(level, a, b[1..], g); }
        assert Merge(level, a, b)[1..] == Merge(level, a, b[1..]);
      }
    }
  }

  lemma MergeOk(level: nat, a: seq<File>, b: seq<File>)
    requires level > 0 && LevelOk(level, a) && LevelOk(level, b) && AllApart(a, b) && AllNew(a, b)
    ensures LevelOk(level, Merge(level, a, b))
  {
    MergeSorted(level, a, b);
    MergeDistinct(level, a, b);
    forall f | f in Merge(level, a, b) ensures FileOk(f) { MergeIn(level, a, b, f); }
  }

  /** In a sorted level the file that has a key is the only one, so the level returns its value. */
  lemma HitAny(fs: seq<File>, f: File, k: Key)
    requires LevelOk(1, fs) && f in fs && Find(f.run, k).Some?
    ensures Hit(fs, k) == Find(f.run, k)
  {
    FindIn(f.run, k);
    HitSorted(fs, k, f);
  }

  lemma MergeHit(level: nat, a: seq<File>, b: seq<File>, k: Key)
    requires level > 0 && LevelOk(level, a) && LevelOk(level, b) && AllApart(a, b) && AllNew(a, b)
    ensures Hit(Merge(level, a, b), k) == Or(Hit(a, k), Hit(b, k))
  {
    var m := Merge(level, a, b);
    MergeOk(level, a, b);
    HitIn(a, k);
    HitIn(b, k);
    if Hit(a, k).Some? {
      var f :| f in a && Find(f.run, k) == Hit(a, k);
      MergeIn(level, a, b, f);
      HitAny(m, f, k);
    } else if Hit(b, k).Some? {
      var f :| f in b && Find(f.run, k) == Hit(b, k);
      MergeIn(level, a, b, f);
      HitAny(m, f, k);
    } else {
      forall f | f in m ensures Find(f.run, k).None? { MergeIn(level, a, b, f); }
      HitNone(m, k);
    }
  }

  // ----- taking files out of a level -----

  /** Files without the key can go. */
  lemma {:induction false} RemoveMisses(fs: seq<File>, refs: set<nat>, k: Key)
    requires forall f :: f in fs && f.ref in refs ==> Find(f.run, k).None?
    ensures Hit(Remove(fs, refs), k) == Hit(fs, k)
  {
    if fs != [] {
      assert fs[0] in fs;
      RemoveMisses(fs[1..], refs, k);
      if fs[0].ref !in refs { assert Remove(fs, refs)[1..] == Remove(fs[1..], refs); }
    }
  }

  /** The files `part` of a sorted level, looked up before the rest of the level, change nothing. */
  lemma RemoveHit(fs: seq<File>, part: seq<File>, k: Key)
    requires LevelOk(1, fs) && forall f :: f in part ==> exists g :: g in fs && g.ref == f.ref && g.run == f.run
    requires forall f :: f in fs && f.ref in Refs(part) ==> exists g :: g in part && g.run == f.run
    ensures Or(Hit(part, k), Hit(Remove(fs, Refs(part)), k)) == Hit(fs, k)
  {
    HitIn(part, k);
    if Hit(part, k).Some? {
      var f :| f in part && Find(f.run, k) == Hit(part, k);
      var g :| g in fs && g.ref == f.ref && g.run == f.run;
      HitAny(fs, g, k);
    } else {
      RemoveMisses(fs, Refs(part), k);
    }
  }
}

/** Table files as the version set sees them: metadata, and the sorted run of pairs they hold. */
module Files {
  import opened Options

  datatype Pair = Pair(key: Key, value: Value)

  type Run = seq<Pair>

  ghost predicate Ascending(r: Run) {
    forall i, j :: 0 <= i < j < |r| ==> r[i].key < r[j].key
  }

  /** The value a table returns for a key. */
  function Find(r: Run, k: Key): Option<Value> {
    if r == [] then None else if r[0].key == k then Some(r[0].value) else Find(r[1..], k)
  }

  lemma {:induction false} FindIn(r: Run, k: Key)
    ensures Find(r, k).Some? ==> Pair(k, Find(r, k).value) in r
    ensures Find(r, k).None? ==> forall p :: p in r ==> p.key != k
  {
    if r != [] { FindIn(r[1..], k); }
  }

  lemma FindUnique(r: Run, p: Pair)
    requires Ascending(r) && p in r
    ensures Find(r, p.key) == Some(p.value)
  {
  }

  /** A file: `minXip` is 0 for the output of a compaction, `busy` marks an input of a running one. */
  datatype File = File(ref: nat, size: nat, minXip: nat, inf: Key, sup: Key, busy: bool, run: Run)

  ghost predicate FileOk(f: File) {
    f.inf <= f.sup && Ascending(f.run) && forall p :: p in f.run ==> f.inf <= p.key <= f.sup
  }

  predicate Overlaps(f: File, lo: Key, hi: Key) {
    f.sup >= lo && f.inf <= hi
  }

  predicate Apart(f: File, g: File) {
    f.sup < g.inf || g.sup < f.inf
  }

  /** The first file in the list that has the key decides. */
  function Hit(fs: seq<File>, k: Key): Option<Value> {
    if fs == [] then None
    else if Find(fs[0].run, k).Some? then Find(fs[0].run, k)
    else Hit(fs[1..], k)
  }

  function Or(a: Option<Value>, b: Option<Value>): Option<Value> {
    if a.Some? then a else b
  }

  lemma {:induction false} HitAppend(a: seq<File>, b: seq<File>, k: Key)
    ensures Hit(a + b, k) == Or(Hit(a, k), Hit(b, k))
  {
    if a == [] {
      assert a + b == b;
    } else {
      assert (a + b)[1..] == a[1..] + b;
      HitAppend(a[1..], b, k);
    }
  }

  lemma {:induction false} HitNone(fs: seq<File>, k: Key)
    requires forall f :: f in fs ==> Find(f.run, k).None?
    ensures Hit(fs, k) == None
  {
    if fs != [] { HitNone(fs[1..], k); }
  }

  lemma {:induction false} HitIn(fs: seq<File>, k: Key)
    ensures Hit(fs, k).Some? ==> exists f :: f in fs && Find(f.run, k) == Hit(fs, k)
    ensures Hit(fs, k).None? ==> forall f :: f in fs ==> Find(f.run, k).None?
  {
    if fs != [] { HitIn(fs[1..], k); }
  }

  // ----- levels -----

  /** Level 0: newest flush first. */
  ghost predicate NewestFirst(fs: seq<File>) {
    fs != [] ==> (forall g :: g in fs[1..] ==> fs[0].minXip > g.minXip) && NewestFirst(fs[1..])
  }

  /** Deeper levels: ascending and disjoint. */
  ghost predicate Sorted(fs: seq<File>) {
    fs != [] ==> (forall g :: g in fs[1..] ==> fs[0].sup < g.inf) && Sorted(fs[1..])
  }

  ghost predicate DistinctRefs(fs: seq<File>) {
    fs != [] ==> (forall g :: g in fs[1..] ==> fs[0].ref != g.ref) && DistinctRefs(fs[1..])
  }

  ghost predicate LevelOk(level: nat, fs: seq<File>) {
    && (forall f :: f in fs ==> FileOk(f))
    && DistinctRefs(fs)
    && if level == 0 then NewestFirst(fs) else Sorted(fs)
  }

  lemma {:induction false} SortedAt(fs: seq<File>, i: nat, j: nat)
    requires Sorted(fs) && i < j < |fs|
    ensures fs[i].sup < fs[j].inf
  {
    if i == 0 { assert fs[j] == fs[1..][j - 1]; } else { SortedAt(fs[1..], i - 1, j - 1); }
  }

  lemma {:induction false} NewestAt(fs: seq<File>, i: nat, j: nat)
    requires NewestFirst(fs) && i < j < |fs|
    ensures fs[i].minXip > fs[j].minXip
  {
    if i == 0 { assert fs[j] == fs[1..][j - 1]; } else { NewestAt(fs[1..], i - 1, j - 1); }
  }

  lemma {:induction false} RefsAt(fs: seq<File>, i: nat, j: nat)
    requires DistinctRefs(fs) && i < j < |fs|
    ensures fs[i].ref != fs[j].ref
  {
    if i == 0 { assert fs[j] == fs[1..][j - 1]; } else { RefsAt(fs[1..], i - 1, j - 1); }
  }

  /** In a sorted level at most one file can hold a key. */
  lemma HitSorted(fs: seq<File>, k: Key, f: File)
    requires LevelOk(1, fs) && f in fs && f.inf <= k <= f.sup
    ensures Hit(fs, k) == Find(f.run, k)
  {
    HitIn(fs, k);
    if Hit(fs, k).Some? {
      var g :| g in fs && Find(g.run, k) == Hit(fs, k);
      FindIn(g.run, k);
      var i :| 0 <= i < |fs| && fs[i] == f;
      var j :| 0 <= j < |fs| && fs[j] == g;
      if i < j { SortedAt(fs, i, j); } else if j < i { SortedAt(fs, j, i); }
    }
  }

  /** Files of a sorted level are the same file or apart. */
  lemma SortedApart(fs: seq<File>, f: File, g: File)
    requires LevelOk(1, fs) && f in fs && g in fs && f != g
    ensures Apart(f, g) && f.ref != g.ref
  {
    var i :| 0 <= i < |fs| && fs[i] == f;
    var j :| 0 <= j < |fs| && fs[j] == g;
    if i < j { SortedAt(fs, i, j); RefsAt(fs, i, j); } else { SortedAt(fs, j, i); RefsAt(fs, j, i); }
  }

  // ----- removing and marking -----

  function Remove(fs: seq<File>, refs: set<nat>): seq<File> {
    if fs == [] then []
    else if fs[0].ref in refs then Remove(fs[1..], refs)
    else [fs[0]] + Remove(fs[1..], refs)
  }

  lemma {:induction false} RemoveIn(fs: seq<File>, refs: set<nat>, f: File)
    ensures f in Remove(fs, refs) <==> f in fs && f.ref !in refs
  {
    if fs != [] { RemoveIn(fs[1..], refs, f); }
  }

  lemma {:induction false} RemoveOk(level: nat, fs: seq<File>, refs: set<nat>)
    requires LevelOk(level, fs)
    ensures LevelOk(level, Remove(fs, refs))
  {
    if fs != [] {
      RemoveOk(level, fs[1..], refs);
      forall g ensures g in Remove(fs[1..], refs) <==> g in fs[1..] && g.ref !in refs { RemoveIn(fs[1..], refs, g); }
      if fs[0].ref !in refs { assert Remove(fs, refs)[1..] == Remove(fs[1..], refs); }
    }
  }

  lemma {:induction false} RemoveNone(fs: seq<File>, refs: set<nat>)
    requires forall f :: f in fs ==> f.ref !in refs
    ensures Remove(fs, refs) == fs
  {
    if fs != [] { RemoveNone(fs[1..], refs); }
  }

  lemma {:induction false} RemoveAll(fs: seq<File>, refs: set<nat>)
    requires forall f :: f in fs ==> f.ref in refs
    ensures Remove(fs, refs) == []
  {
    if fs != [] { RemoveAll(fs[1..], refs); }
  }

  lemma {:induction false} RemoveAppend(a: seq<File>, b: seq<File>, refs: set<nat>)
    ensures Remove(a + b, refs) == Remove(a, refs) + Remove(b, refs)
  {
    if a == [] { assert a + b == b; }
    else { assert (a + b)[1..] == a[1..] + b; RemoveAppend(a[1..], b, refs); }
  }

  function MarkFile(f: File, refs: set<nat>): File {
    if f.ref in refs then f.(busy := true) else f
  }

  function MarkLevel(fs: seq<File>, refs: set<nat>): (r: seq<File>)
    ensures |r| == |fs| && forall i :: 0 <= i < |fs| ==> r[i] == MarkFile(fs[i], refs)
  {
    seq(|fs|, i requires 0 <= i < |fs| => MarkFile(fs[i], refs))
  }

  lemma MarkIn(fs: seq<File>, refs: set<nat>, g: File)
    ensures g in MarkLevel(fs, refs) <==> exists f :: f in fs && g == MarkFile(f, refs)
  {
    if g in MarkLevel(fs, refs) {
      var i :| 0 <= i < |fs| && g == MarkLevel(fs, refs)[i];
      assert fs[i] in fs;
    }
    forall f | f in fs && g == MarkFile(f, refs) ensures g in MarkLevel(fs, refs) {
      var i :| 0 <= i < |fs| && f == fs[i];
      assert MarkLevel(fs, refs)[i] == g;
    }
  }

  lemma {:induction false} MarkOrder(fs: seq<File>, refs: set<nat>)
    ensures Sorted(fs) ==> Sorted(MarkLevel(fs, refs))
    ensures NewestFirst(fs) ==> NewestFirst(MarkLevel(fs, refs))
    ensures DistinctRefs(fs) ==> DistinctRefs(MarkLevel(fs, refs))
  {
    if fs != [] {
      var rest := MarkLevel(fs[1..], refs);
      assert MarkLevel(fs, refs) == [MarkFile(fs[0], refs)] + rest;
      MarkOrder(fs[1..], refs);
      forall g | g in rest ensures exists f :: f in fs[1..] && g == MarkFile(f, refs) { MarkIn(fs[1..], refs, g); }
    }
  }

  lemma MarkOk(level: nat, fs: seq<File>, refs: set<nat>)
    requires LevelOk(level, fs)
    ensures LevelOk(level, MarkLevel(fs, refs))
  {
    forall g | g in MarkLevel(fs, refs) ensures FileOk(g) { MarkIn(fs, refs, g); }
    MarkOrder(fs, refs);
  }

  lemma {:induction false} MarkHit(fs: seq<File>, refs: set<nat>, k: Key)
    ensures Hit(MarkLevel(fs, refs), k) == Hit(fs, k)
  {
    if fs != [] {
      assert MarkLevel(fs, refs)[1..] == MarkLevel(fs[1..], refs);
      MarkHit(fs[1..], refs, k);
    }
  }

  function Refs(fs: seq<File>): set<nat> {
    set f | f in fs :: f.ref
  }
}

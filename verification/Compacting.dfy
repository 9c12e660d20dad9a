/** Running a compaction: merge the inputs, cut the result into files, and describe the change. */
module Compacting {
  import opened Options
  import opened Files
  import opened Levels
  import opened Lsm
  import opened VersionBuilder
  import opened MergingIter

  // ----- the inputs as sources -----

  /** Files of level 0 carry their `min_xip`, all others the invalid timestamp. */
  function SourceOf(level: nat, f: File): Source {
    Source(if level == 0 then f.minXip else 0, f.run)
  }

  function SourcesOf(level: nat, fs: seq<File>): (ss: seq<Source>)
    ensures |ss| == |fs| && forall i :: 0 <= i < |fs| ==> ss[i] == SourceOf(level, fs[i])
  {
    seq(|fs|, i requires 0 <= i < |fs| => SourceOf(level, fs[i]))
  }

  function InputSources(c: Compaction): seq<Source> {
    SourcesOf(c.level, c.inputs0) + SourcesOf(c.level + 1, c.inputs1)
  }

  method MakeInputIterator(c: Compaction) returns (iter: MergingIter)
    ensures fresh(iter) && iter.Valid() && iter.Remaining() == Dedup(Drain(InputSources(c)))
  {
    var iters: seq<Source> := [];
    for i := 0 to |c.inputs0|
      invariant iters == SourcesOf(c.level, c.inputs0[..i])
    {
      iters := iters + [SourceOf(c.level, c.inputs0[i])];
    }
    for i := 0 to |c.inputs1|
      invariant iters == SourcesOf(c.level, c.inputs0) + SourcesOf(c.level + 1, c.inputs1[..i])
    {
      iters := iters + [SourceOf(c.level + 1, c.inputs1[i])];
    }
    assert iters == InputSources(c);
    iter := new MergingIter(iters);
  }

  /** No source is newer than one before it. */
  ghost predicate NoNewer(ss: seq<Source>) {
    forall i, j :: 0 <= i < j < |ss| ==> ss[j].ts <= ss[i].ts
  }

  lemma {:induction false} FirstWins(acc: Option<Item>, ss: seq<Source>, fs: seq<File>, k: Key)
    requires |ss| == |fs| && NoNewer(ss) && forall i :: 0 <= i < |ss| ==> ss[i].run == fs[i].run
    requires acc.Some? ==> forall i :: 0 <= i < |ss| ==> ss[i].ts <= acc.value.ts
    ensures ValueOf(Best(acc, ss, k)) == if acc.Some? then ValueOf(acc) else Hit(fs, k)
    decreases |ss|
  {
    if ss != [] {
      var v := Find(ss[0].run, k);
      FirstWins(if v.Some? then Newer(acc, Item(ss[0].ts, Pair(k, v.value))) else acc, ss[1..], fs[1..], k);
    }
  }

  /** The inputs of a compaction as it was picked: level 0 newest first. */
  ghost predicate InputsOk(c: Compaction) {
    && (forall f :: f in c.inputs0 + c.inputs1 ==> FileOk(f))
    && (c.level == 0 ==> NewestFirst(c.inputs0))
  }

  /** The merge of the inputs finds what a lookup through the files finds. */
  lemma MergedInputs(c: Compaction, k: Key)
    requires InputsOk(c)
    ensures Ascending(Dedup(Drain(InputSources(c))))
    ensures Find(Dedup(Drain(InputSources(c))), k) == Hit(c.inputs0 + c.inputs1, k)
  {
    var ss, fs := InputSources(c), c.inputs0 + c.inputs1;
    forall i | 0 <= i < |ss| ensures ss[i].run == fs[i].run && Ascending(ss[i].run) {
      assert fs[i] in fs;
    }
    forall i, j | 0 <= i < j < |ss| ensures ss[j].ts <= ss[i].ts {
      if c.level == 0 && j < |c.inputs0| { NewestAt(c.inputs0, i, j); }
    }
    FirstWins(None, ss, fs, k);
    MergedRun(ss, k);
  }

  // ----- the outputs -----

  /** All pairs of the files, in order. */
  function Concat(fs: seq<File>): Run {
    if fs == [] then [] else Concat(fs[..|fs| - 1]) + fs[|fs| - 1].run
  }

  /** An output file: its range is its first and last key. */
  ghost predicate OutFile(f: File, ref: nat) {
    && f.run != [] && f.inf == f.run[0].key && f.sup == f.run[|f.run| - 1].key
    && f.ref == ref && f.minXip == 0 && !f.busy
  }

  ghost predicate OutFiles(fs: seq<File>, numbers: seq<nat>) {
    |fs| <= |numbers| && forall i :: 0 <= i < |fs| ==> OutFile(fs[i], numbers[i])
  }

  ghost predicate DistinctNumbers(ns: seq<nat>) {
    forall i, j :: 0 <= i < j < |ns| ==> ns[i] != ns[j]
  }

  lemma AscendingPart(a: Run, b: Run)
    requires Ascending(a + b)
    ensures Ascending(a) && Ascending(b) && forall p, q :: p in a && q in b ==> p.key < q.key
  {
    forall i, j | 0 <= i < j < |a| ensures a[i].key < a[j].key { assert (a + b)[i] == a[i] && (a + b)[j] == a[j]; }
    forall i, j | 0 <= i < j < |b| ensures b[i].key < b[j].key { assert (a + b)[|a| + i] == b[i] && (a + b)[|a| + j] == b[j]; }
    forall p, q | p in a && q in b ensures p.key < q.key {
      var i :| 0 <= i < |a| && a[i] == p;
      var j :| 0 <= j < |b| && b[j] == q;
      assert (a + b)[i] == p && (a + b)[|a| + j] == q;
    }
  }

  lemma {:induction false} FindAppend(a: Run, b: Run, k: Key)
    ensures Find(a + b, k) == if Find(a, k).Some? then Find(a, k) else Find(b, k)
  {
    if a == [] {
      assert a + b == b;
    } else {
      assert (a + b)[1..] == a[1..] + b;
      FindAppend(a[1..], b, k);
    }
  }

  lemma {:induction false} ConcatHas(fs: seq<File>, f: File, p: Pair)
    requires f in fs && p in f.run
    ensures p in Concat(fs)
  {
    var n := |fs| - 1;
    if f == fs[n] {
    } else {
      assert fs == fs[..n] + [fs[n]];
      ConcatHas(fs[..n], f, p);
    }
  }

  /** Appending a file after all others. */
  lemma {:induction false} SortedSnoc(fs: seq<File>, f: File)
    requires Sorted(fs) && DistinctRefs(fs) && forall g :: g in fs ==> g.sup < f.inf && g.ref != f.ref
    ensures Sorted(fs + [f]) && DistinctRefs(fs + [f])
  {
    if fs != [] {
      assert (fs + [f])[1..] == fs[1..] + [f];
      assert forall g :: g in fs[1..] ==> g in fs;
      SortedSnoc(fs[1..], f);
    }
  }

  lemma OutFileOk(f: File, ref: nat)
    requires OutFile(f, ref) && Ascending(f.run)
    ensures FileOk(f) && Find(f.run, f.inf).Some? && Find(f.run, f.sup).Some?
  {
    forall p | p in f.run ensures f.inf <= p.key <= f.sup {
      var i :| 0 <= i < |f.run| && f.run[i] == p;
    }
    assert f.run[0] in f.run && f.run[|f.run| - 1] in f.run;
    FindIn(f.run, f.inf);
    FindIn(f.run, f.sup);
  }

  lemma PieceBefore(most: seq<File>, g: File, f: File)
    requires g in most && g.run != [] && f.run != [] && forall p, q :: p in Concat(most) && q in f.run ==> p.key < q.key
    ensures g.run[|g.run| - 1].key < f.run[0].key
  {
    assert g.run[|g.run| - 1] in g.run && f.run[0] in f.run;
    ConcatHas(most, g, g.run[|g.run| - 1]);
  }

  /** Consecutive pieces of an ascending run are files of a sorted level that answers as the run does. */
  lemma {:induction false} PiecesOk(fs: seq<File>, numbers: seq<nat>)
    requires OutFiles(fs, numbers) && DistinctNumbers(numbers) && Ascending(Concat(fs))
    ensures LevelOk(1, fs)
    ensures forall f :: f in fs ==> Find(f.run, f.inf).Some? && Find(f.run, f.sup).Some?
  {
    if fs != [] {
      var n := |fs| - 1;
      var most, f := fs[..n], fs[n];
      assert fs == most + [f];
      AscendingPart(Concat(most), f.run);
      PiecesOk(most, numbers);
      OutFileOk(f, numbers[n]);
      forall g | g in most ensures g.sup < f.inf && g.ref != f.ref {
        var i :| 0 <= i < n && most[i] == g;
        assert OutFile(fs[i], numbers[i]);
        PieceBefore(most, g, f);
      }
      SortedSnoc(most, f);
    }
  }

  lemma {:induction false} PiecesHit(fs: seq<File>, k: Key)
    ensures Hit(fs, k) == Find(Concat(fs), k)
  {
    if fs != [] {
      var n := |fs| - 1;
      assert fs == fs[..n] + [fs[n]];
      HitAppend(fs[..n], [fs[n]], k);
      FindAppend(Concat(fs[..n]), fs[n].run, k);
      PiecesHit(fs[..n], k);
    }
  }

  lemma OneMore(run: Run, p: Pair, rest: Run)
    ensures (run + [p]) + rest == run + ([p] + rest)
  {
  }

  lemma ConcatSnoc(fs: seq<File>, f: File, rest: Run)
    ensures Concat(fs + [f]) + rest == Concat(fs) + (f.run + rest)
  {
    assert (fs + [f])[..|fs|] == fs;
  }

  lemma OutFilesSnoc(fs: seq<File>, f: File, numbers: seq<nat>)
    requires OutFiles(fs, numbers) && |fs| < |numbers| && OutFile(f, numbers[|fs|])
    ensures OutFiles(fs + [f], numbers)
  {
  }

  /** Writes one table: at least one pair, then more until the table is full or the input ends. */
  method WriteTable(iter: MergingIter, first: Pair, full: Run -> bool) returns (run: Run)
    requires iter.Valid()
    modifies iter
    ensures iter.Valid() && run != [] && [first] + old(iter.Remaining()) == run + iter.Remaining()
  {
    run := [first];
    ghost var whole := [first] + iter.Remaining();
    while true
      invariant iter.Valid() && run != [] && whole == run + iter.Remaining()
      decreases |iter.Remaining()|
    {
      var next := iter.Next();
      if next.None? { break; }
      OneMore(run, next.value, iter.Remaining());
      run := run + [next.value];
      if full(run) { break; }
    }
  }

  /** Cuts the merged pairs into files. `full` stands for the size limit of the level, `numbers` for the
      numbers that the version set hands out, `sizes` for the sizes of the files written. */
  method WriteOutputs(iter: MergingIter, numbers: seq<nat>, sizes: seq<nat>, full: Run -> bool) returns (outs: seq<File>)
    requires iter.Valid() && |sizes| == |numbers| >= |iter.Remaining()|
    modifies iter
    ensures OutFiles(outs, numbers) && Concat(outs) == old(iter.Remaining())
  {
    outs := [];
    ghost var whole := iter.Remaining();
    ghost var rest := whole;
    while true
      invariant iter.Valid() && OutFiles(outs, numbers)
      invariant rest == iter.Remaining() && Concat(outs) + rest == whole
      invariant |outs| + |rest| <= |numbers|
      decreases |rest|
    {
      var next := iter.Next();
      if next.None? { break; }
      var run := WriteTable(iter, next.value, full);
      assert rest == run + iter.Remaining();
      rest := iter.Remaining();
      var f := File(numbers[|outs|], sizes[|outs|], 0, run[0].key, run[|run| - 1].key, false, run);
      ConcatSnoc(outs, f, rest);
      OutFilesSnoc(outs, f, numbers);
      outs := outs + [f];
    }
  }

  /** The edit of a finished compaction: outputs added one level down, all inputs deleted. */
  method DescribeEdit(c: Compaction, outs: seq<File>) returns (edit: VersionEdit)
    ensures edit == FinalEdit(c, outs)
  {
    var adds: seq<(nat, File)> := [];
    for i := 0 to |outs|
      invariant adds == AddsOf(c.level + 1, outs[..i])
    {
      adds := adds + [(c.level + 1, outs[i])];
    }
    assert outs[..|outs|] == outs;
    var deleted: set<(nat, nat)> := {};
    for i := 0 to |c.inputs0|
      invariant deleted == Names(c.level, Refs(c.inputs0[..i]))
    {
      NamesSnoc(c.level, c.inputs0[..i], c.inputs0[i]);
      assert c.inputs0[..i + 1] == c.inputs0[..i] + [c.inputs0[i]];
      deleted := deleted + {(c.level, c.inputs0[i].ref)};
    }
    assert c.inputs0[..|c.inputs0|] == c.inputs0;
    for i := 0 to |c.inputs1|
      invariant deleted == Names(c.level, Refs(c.inputs0)) + Names(c.level + 1, Refs(c.inputs1[..i]))
    {
      NamesSnoc(c.level + 1, c.inputs1[..i], c.inputs1[i]);
      assert c.inputs1[..i + 1] == c.inputs1[..i] + [c.inputs1[i]];
      deleted := deleted + {(c.level + 1, c.inputs1[i].ref)};
    }
    assert c.inputs1[..|c.inputs1|] == c.inputs1;
    edit := VersionEdit(None, adds, deleted, []);
  }

  lemma NamesSnoc(level: nat, fs: seq<File>, f: File)
    ensures Names(level, Refs(fs + [f])) == Names(level, Refs(fs)) + {(level, f.ref)}
  {
    assert Refs(fs + [f]) == Refs(fs) + {f.ref} by {
      forall r ensures r in Refs(fs + [f]) <==> r in Refs(fs) || r == f.ref {
        if r in Refs(fs) {
          var g :| g in fs && g.ref == r;
          assert g in fs + [f];
        }
        if r == f.ref { assert f in fs + [f]; }
      }
    }
  }

  /** A compaction from its inputs to the edit that is handed to the version set. */
  method StartCompaction(c: Compaction, numbers: seq<nat>, sizes: seq<nat>, full: Run -> bool, ghost pending: set<nat>)
      returns (edit: VersionEdit, outs: seq<File>)
    requires InputsOk(c)
    requires |sizes| == |numbers| >= |Dedup(Drain(InputSources(c)))|
    requires DistinctNumbers(numbers) && forall n :: n in numbers ==> n in pending
    ensures edit == FinalEdit(c, outs) && OutsOk(c, outs, pending)
  {
    var iter := MakeInputIterator(c);
    outs := WriteOutputs(iter, numbers, sizes, full);
    OutputsOk(c, outs, numbers, pending);
    edit := DescribeEdit(c, outs);
  }

  lemma OutputsOk(c: Compaction, outs: seq<File>, numbers: seq<nat>, pending: set<nat>)
    requires InputsOk(c) && OutFiles(outs, numbers) && Concat(outs) == Dedup(Drain(InputSources(c)))
    requires DistinctNumbers(numbers) && forall n :: n in numbers ==> n in pending
    ensures OutsOk(c, outs, pending)
  {
    forall k ensures Hit(outs, k) == Hit(c.inputs0 + c.inputs1, k) {
      MergedInputs(c, k);
      PiecesHit(outs, k);
    }
    MergedInputs(c, 0);
    PiecesOk(outs, numbers);
    forall f | f in outs ensures f.ref in pending && !f.busy && f.minXip == 0 {
      var i :| 0 <= i < |outs| && outs[i] == f;
      assert OutFile(outs[i], numbers[i]);
    }
  }

  /** Inputs of a running compaction are fit to be merged. */
  lemma RunningInputs(files: seq<seq<File>>, c: Compaction)
    requires LevelsOk(files) && RunOk(files, c)
    ensures InputsOk(c)
  {
    if c.level == 0 {
      var n: nat :| n < |files[0]| && files[0][n..] == MarkLevel(c.inputs0, Refs(c.inputs0));
      assert LevelOk(0, files[0]);
      SuffixNewest(files[0], n);
      UnmarkNewest(c.inputs0, Refs(c.inputs0));
    }
  }

  lemma {:induction false} SuffixNewest(fs: seq<File>, n: nat)
    requires NewestFirst(fs) && n <= |fs|
    ensures NewestFirst(fs[n..])
  {
    if n > 0 {
      SuffixNewest(fs[1..], n - 1);
      assert fs[1..][n - 1..] == fs[n..];
    }
  }

  lemma {:induction false} UnmarkNewest(fs: seq<File>, refs: set<nat>)
    requires NewestFirst(MarkLevel(fs, refs))
    ensures NewestFirst(fs)
  {
    if fs != [] {
      var ms := MarkLevel(fs, refs);
      assert ms[1..] == MarkLevel(fs[1..], refs);
      UnmarkNewest(fs[1..], refs);
      forall g | g in fs[1..] ensures fs[0].minXip > g.minXip {
        var i :| 0 <= i < |fs[1..]| && fs[1..][i] == g;
        assert ms[1..][i] in ms[1..];
      }
    }
  }
}

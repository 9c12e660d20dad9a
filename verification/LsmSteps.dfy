/** Every step of the version set keeps its invariant. */
module LsmSteps {
  import opened Options
  import opened Files
  import opened Levels
  import opened Lsm

  // ----- helpers -----

  lemma SameRef(fs: seq<File>, f: File, g: File)
    requires DistinctRefs(fs) && f in fs && g in fs && f.ref == g.ref
    ensures f == g
  {
    var i :| 0 <= i < |fs| && fs[i] == f;
    var j :| 0 <= j < |fs| && fs[j] == g;
    if i < j { RefsAt(fs, i, j); } else if j < i { RefsAt(fs, j, i); }
  }

  lemma PresentAfterRemove(ins: seq<File>, fs: seq<File>, refs: set<nat>)
    requires Present(ins, fs) && Refs(ins) !! refs
    ensures Present(ins, Remove(fs, refs))
  {
    forall f | f in ins ensures Marked(f) in Remove(fs, refs) {
      assert f.ref in Refs(ins);
      RemoveIn(fs, refs, Marked(f));
    }
  }

  lemma PresentAfterMerge(ins: seq<File>, level: nat, a: seq<File>, b: seq<File>)
    requires Present(ins, b)
    ensures Present(ins, Merge(level, a, b))
  {
    forall f | f in ins ensures Marked(f) in Merge(level, a, b) { MergeIn(level, a, b, Marked(f)); }
  }

  lemma PresentAfterMark(ins: seq<File>, fs: seq<File>, refs: set<nat>)
    requires Present(ins, fs)
    ensures Present(ins, MarkLevel(fs, refs))
  {
    forall f | f in ins ensures Marked(f) in MarkLevel(fs, refs) {
      assert MarkFile(Marked(f), refs) == Marked(f);
      MarkIn(fs, refs, Marked(f));
    }
  }

  lemma MarkedPresent(ins: seq<File>, fs: seq<File>)
    requires forall f :: f in ins ==> f in fs
    ensures Present(ins, MarkLevel(fs, Refs(ins)))
  {
    forall f | f in ins ensures Marked(f) in MarkLevel(fs, Refs(ins)) {
      assert f.ref in Refs(ins);
      MarkIn(fs, Refs(ins), Marked(f));
    }
  }

  /** Files not yet busy are in nobody's inputs. */
  lemma NotInputs(fs: seq<File>, fresh0: seq<File>, ins: seq<File>)
    requires DistinctRefs(fs) && Present(ins, fs) && forall f :: f in fresh0 ==> f in fs && !f.busy
    ensures Refs(fresh0) !! Refs(ins)
  {
    forall r | r in Refs(fresh0) ensures r !in Refs(ins) {
      var f :| f in fresh0 && f.ref == r;
      if r in Refs(ins) {
        var g :| g in ins && g.ref == r;
        SameRef(fs, f, Marked(g));
        assert false;
      }
    }
  }

  /** Two adjacent levels replaced by lists that are in order. */
  lemma LevelsReplace(files: seq<seq<File>>, l: nat, a: seq<File>, b: seq<File>)
    requires l + 1 < |files| && LevelsOk(files) && LevelOk(l, a) && LevelOk(l + 1, b)
    ensures LevelsOk(files[l := a][l + 1 := b])
  {
  }

  /** No file with a new number is an input. */
  lemma NewNotInputs(fs: seq<File>, ins: seq<File>, added: seq<File>)
    requires Present(ins, fs) && AllNew(added, fs)
    ensures forall f :: f in added ==> f.ref !in Refs(ins)
  {
    forall r | r in Refs(ins) ensures exists g :: g in fs && g.ref == r {
      var o :| o in ins && o.ref == r;
      assert Marked(o) in fs;
    }
  }

  // ----- NewNumber -----

  lemma NumberKeeps(s: State)
    requires Inv(s)
    ensures Inv(NumberState(s))
  {
  }

  // ----- AddFlush -----

  lemma FlushFront(s: State, f: File)
    requires NewestOk(s.files, s.minXip) && f.minXip > s.minXip
    ensures FlushFiles(s.files, f) == s.files[0 := [f] + s.files[0]]
  {
    MergeFront(0, [f], s.files[0]);
  }

  lemma FlushLevels(s: State, f: File)
    requires Inv(s) && Enabled(s, AddFlush(f))
    ensures LevelsOk(FlushFiles(s.files, f))
  {
    FlushFront(s, f);
    assert LevelOk(0, s.files[0]);
    assert ([f] + s.files[0])[1..] == s.files[0];
    assert LevelOk(0, [f] + s.files[0]);
  }

  lemma UpperOnTop(f: File, fs: seq<File>, ins: seq<File>)
    requires UpperOk(0, fs, ins)
    ensures UpperOk(0, [f] + fs, ins)
  {
    var n: nat :| n < |fs| && fs[n..] == MarkLevel(ins, Refs(ins));
    assert ([f] + fs)[n + 1..] == fs[n..];
  }

  lemma FlushRun(files: seq<seq<File>>, f: File, c: Compaction)
    requires RunOk(files, c)
    ensures RunOk(files[0 := [f] + files[0]], c)
  {
    if c.level == 0 { UpperOnTop(f, files[0], c.inputs0); }
  }

  lemma FlushKeeps(s: State, f: File)
    requires Inv(s) && Enabled(s, AddFlush(f))
    ensures Inv(FlushState(s, f))
  {
    FlushLevels(s, f);
    FlushFront(s, f);
    forall id | id in s.running ensures RunOk(FlushFiles(s.files, f), s.running[id]) {
      FlushRun(s.files, f, s.running[id]);
    }
  }

  // ----- Pick -----

  lemma MarkLevels(files: seq<seq<File>>, c: Compaction)
    requires LevelsOk(files) && c.level + 1 < |files|
    ensures LevelsOk(MarkFiles(files, c))
  {
    MarkOk(c.level, files[c.level], Refs(c.inputs0));
    MarkOk(c.level + 1, files[c.level + 1], Refs(c.inputs1));
    LevelsReplace(files, c.level, MarkLevel(files[c.level], Refs(c.inputs0)), MarkLevel(files[c.level + 1], Refs(c.inputs1)));
  }

  /** Every file after marking is a file from before, up to its mark. */
  lemma MarkFilesIn(files: seq<seq<File>>, c: Compaction, l: nat, g: File)
    requires c.level + 1 < |files| && l < |files| && g in MarkFiles(files, c)[l]
    ensures exists f :: f in files[l] && (g == f || g == Marked(f))
  {
    if l == c.level { MarkIn(files[l], Refs(c.inputs0), g); }
    else if l == c.level + 1 { MarkIn(files[l], Refs(c.inputs1), g); }
  }

  lemma MarkLower(fs: seq<File>, refs: set<nat>, ins: seq<File>, lo: Key, hi: Key)
    requires LowerOk(fs, ins, lo, hi)
    ensures LowerOk(MarkLevel(fs, refs), ins, lo, hi)
  {
    PresentAfterMark(ins, fs, refs);
    forall g | g in MarkLevel(fs, refs) ensures g.ref in Refs(ins) <==> Overlaps(g, lo, hi) {
      MarkIn(fs, refs, g);
    }
  }

  lemma MarkUpper(level: nat, fs: seq<File>, refs: set<nat>, ins: seq<File>)
    requires UpperOk(level, fs, ins) && level > 0
    ensures UpperOk(level, MarkLevel(fs, refs), ins)
  {
    PresentAfterMark(ins, fs, refs);
  }

  /** A compaction that is running is not disturbed by the marks of another. */
  lemma MarkRun(files: seq<seq<File>>, c: Compaction, d: Compaction)
    requires RunOk(files, d) && c.level + 1 < |files| && (d.level == 0 ==> c.level > 0)
    ensures RunOk(MarkFiles(files, c), d)
  {
    var lo, hi := Lo(d.inputs0), Hi(d.inputs0);
    if d.level > 0 {
      MarkUpper(d.level, files[d.level], Refs(c.inputs0), d.inputs0);
      MarkUpper(d.level, files[d.level], Refs(c.inputs1), d.inputs0);
    }
    MarkLower(files[d.level + 1], Refs(c.inputs0), d.inputs1, lo, hi);
    MarkLower(files[d.level + 1], Refs(c.inputs1), d.inputs1, lo, hi);
  }

  lemma {:induction false} MarkSuffix(fs: seq<File>, n: nat)
    requires n < |fs|
    requires DistinctRefs(fs)
    ensures MarkLevel(fs, Refs(fs[n..]))[n..] == MarkLevel(fs[n..], Refs(fs[n..]))
  {
  }

  lemma PickedUpper(level: nat, fs: seq<File>, ins: seq<File>)
    requires LevelOk(level, fs) && ins != [] && forall f :: f in ins ==> f in fs
    requires if level == 0 then exists n: nat :: n < |fs| && ins == fs[n..] else |ins| == 1
    ensures UpperOk(level, MarkLevel(fs, Refs(ins)), ins)
  {
    MarkedPresent(ins, fs);
    if level == 0 {
      var n: nat :| n < |fs| && ins == fs[n..];
      MarkSuffix(fs, n);
    }
  }

  lemma PickedLower(level: nat, fs: seq<File>, lo: Key, hi: Key)
    requires level > 0 && LevelOk(level, fs)
    ensures LowerOk(MarkLevel(fs, Refs(Overlapping(fs, lo, hi))), Overlapping(fs, lo, hi), lo, hi)
  {
    var ins := Overlapping(fs, lo, hi);
    var refs := Refs(ins);
    OverlappingOk(level, fs, lo, hi);
    forall f ensures f in ins <==> f in fs && Overlaps(f, lo, hi) { OverlappingIn(fs, lo, hi, f); }
    MarkedPresent(ins, fs);
    forall g | g in MarkLevel(fs, refs) ensures g.ref in refs <==> Overlaps(g, lo, hi) {
      MarkIn(fs, refs, g);
      var f :| f in fs && g == MarkFile(f, refs);
      if g.ref in refs {
        var h :| h in ins && h.ref == g.ref;
        SameRef(fs, f, h);
      }
      if Overlaps(g, lo, hi) { assert f in ins; }
    }
  }

  lemma PickedRun(files: seq<seq<File>>, running: map<nat, Compaction>, c: Compaction)
    requires LevelsOk(files) && PickOk(files, running, c)
    ensures RunOk(MarkFiles(files, c), c)
  {
    PickedUpper(c.level, files[c.level], c.inputs0);
    PickedLower(c.level + 1, files[c.level + 1], Lo(c.inputs0), Hi(c.inputs0));
  }

  /** The chosen files belong to no running compaction. */
  lemma PickedDisjoint(files: seq<seq<File>>, running: map<nat, Compaction>, c: Compaction, d: Compaction)
    requires forall l: nat :: l < |files| ==> DistinctRefs(files[l])
    requires PickOk(files, running, c) && RunOk(files, d) && (d.level == 0 ==> c.level > 0)
    ensures Disjoint(c, d) && Disjoint(d, c)
  {
    PickedIn(files[c.level + 1], c);
    if c.level == d.level {
      NotInputs(files[c.level], c.inputs0, d.inputs0);
      NotInputs(files[c.level + 1], c.inputs1, d.inputs1);
    } else if c.level + 1 == d.level {
      NotInputs(files[c.level + 1], c.inputs1, d.inputs0);
    } else if d.level + 1 == c.level {
      NotInputs(files[c.level], c.inputs0, d.inputs1);
    }
  }

  lemma PickedIn(fs: seq<File>, c: Compaction)
    requires c.inputs0 != [] && c.inputs1 == Overlapping(fs, Lo(c.inputs0), Hi(c.inputs0))
    ensures forall f :: f in c.inputs1 ==> f in fs
  {
    forall f | f in c.inputs1 ensures f in fs { OverlappingIn(fs, Lo(c.inputs0), Hi(c.inputs0), f); }
  }

  lemma PickedRunning(files: seq<seq<File>>, running: map<nat, Compaction>, id: nat, c: Compaction)
    requires LevelsOk(files) && RunningOk(files, running) && id !in running && PickOk(files, running, c)
    ensures RunningOk(MarkFiles(files, c), running[id := c])
  {
    PickedRun(files, running, c);
    forall j | j in running ensures RunOk(MarkFiles(files, c), running[j]) { MarkRun(files, c, running[j]); }
    assert forall l: nat :: l < |files| ==> LevelOk(l, files[l]);
    forall j | j in running ensures Disjoint(c, running[j]) && Disjoint(running[j], c) {
      PickedDisjoint(files, running, c, running[j]);
    }
    RunningAfterPick(MarkFiles(files, c), running, id, c);
  }

  lemma PickKeeps(s: State, id: nat, c: Compaction)
    requires Inv(s) && id !in s.running && PickOk(s.files, s.running, c)
    ensures Inv(PickState(s, id, c))
  {
    var s' := PickState(s, id, c);
    MarkLevels(s.files, c);
    forall l: nat, f: File | l < |s.files| && f in s'.files[l] ensures f.ref < s.nextRef && f.ref !in s.pending {
      MarkFilesIn(s.files, c, l, f);
    }
    forall f | f in s'.files[0] ensures f.minXip <= s.minXip { MarkFilesIn(s.files, c, 0, f); }
    PickedRunning(s.files, s.running, id, c);
  }

  lemma RunningAfterPick(files: seq<seq<File>>, running: map<nat, Compaction>, id: nat, c: Compaction)
    requires id !in running && RunOk(files, c)
    requires forall j :: j in running ==> RunOk(files, running[j])
    requires forall j :: j in running ==> Disjoint(c, running[j]) && Disjoint(running[j], c)
    requires forall i, j :: i in running && j in running && i != j ==> Disjoint(running[i], running[j])
    ensures RunningOk(files, running[id := c])
  {
  }

  // ----- Finalize -----

  /** What the outputs of a compaction span: keys of the inputs, so at most the hull of their ranges. */
  lemma OutEdge(c: Compaction, outs: seq<File>, pending: set<nat>, f: File, k: Key)
    requires OutsOk(c, outs, pending) && f in outs && (k == f.inf || k == f.sup)
    requires forall g :: g in c.inputs0 + c.inputs1 ==> FileOk(g)
    ensures exists g :: g in c.inputs0 + c.inputs1 && g.inf <= k <= g.sup
  {
    HitAny(outs, f, k);
    HitIn(c.inputs0 + c.inputs1, k);
    var g :| g in c.inputs0 + c.inputs1 && Find(g.run, k) == Hit(outs, k);
    FindIn(g.run, k);
  }

  predicate RangeApart(lo: Key, hi: Key, lo': Key, hi': Key) {
    hi < lo' || hi' < lo
  }

  /** Lower inputs overlap the range of the upper ones, so the hull of both has no gap: a range apart from
      each of them is apart from the hull. */
  lemma HullApart(upper: seq<File>, lower: seq<File>, lo: Key, hi: Key)
    requires upper != [] && lo <= hi && (forall g :: g in upper + lower ==> FileOk(g))
    requires RangeApart(Lo(upper), Hi(upper), lo, hi)
    requires forall g :: g in lower ==> Overlaps(g, Lo(upper), Hi(upper)) && RangeApart(g.inf, g.sup, lo, hi)
    ensures RangeApart(Lo(upper + lower), Hi(upper + lower), lo, hi)
  {
    HullBounds(upper);
    HullBounds(upper + lower);
    var g :| g in upper + lower && Lo(upper + lower) == g.inf;
    var h :| h in upper + lower && Hi(upper + lower) == h.sup;
    assert upper[0] in upper && FileOk((upper + lower)[0]);
    assert g in upper || g in lower;
    assert h in upper || h in lower;
  }

  /** Every output lies in the hull of the inputs. */
  lemma OutsMiss(c: Compaction, outs: seq<File>, pending: set<nat>, lo: Key, hi: Key, f: File)
    requires OutsOk(c, outs, pending) && c.inputs0 != [] && f in outs
    requires forall g :: g in c.inputs0 + c.inputs1 ==> FileOk(g)
    requires RangeApart(Lo(c.inputs0 + c.inputs1), Hi(c.inputs0 + c.inputs1), lo, hi)
    ensures RangeApart(f.inf, f.sup, lo, hi)
  {
    HullBounds(c.inputs0 + c.inputs1);
    OutEdge(c, outs, pending, f, f.inf);
    OutEdge(c, outs, pending, f, f.sup);
  }

  lemma InputFilesOk(files: seq<seq<File>>, c: Compaction)
    requires RunOk(files, c)
    ensures forall g :: g in c.inputs0 + c.inputs1 ==> FileOk(g)
    ensures Lo(c.inputs0) <= Hi(c.inputs0)
  {
    HullBounds(c.inputs0);
    var x :| x in c.inputs0 && Lo(c.inputs0) == x.inf;
    assert FileOk(x);
  }

  /** Files of a level that stay are apart from the lower inputs, which are other files of it. */
  lemma StaysApart(level: nat, base: seq<File>, ins: seq<File>, g: File)
    requires level > 0 && LevelOk(level, base) && Present(ins, base) && g in base && g.ref !in Refs(ins)
    ensures forall o :: o in ins ==> RangeApart(o.inf, o.sup, g.inf, g.sup)
  {
    forall o | o in ins ensures RangeApart(o.inf, o.sup, g.inf, g.sup) {
      assert Marked(o) in base && o.ref in Refs(ins);
      SortedApart(base, Marked(o), g);
    }
  }

  /** The outputs keep off the files of the lower level that stay. */
  lemma OutsApart(files: seq<seq<File>>, c: Compaction, outs: seq<File>, pending: set<nat>)
    requires LevelsOk(files) && RunOk(files, c) && OutsOk(c, outs, pending)
    ensures AllApart(outs, Remove(files[c.level + 1], Refs(c.inputs1)))
  {
    var base := files[c.level + 1];
    InputFilesOk(files, c);
    forall f, g | f in outs && g in Remove(base, Refs(c.inputs1)) ensures Apart(f, g) {
      RemoveIn(base, Refs(c.inputs1), g);
      StaysApart(c.level + 1, base, c.inputs1, g);
      HullApart(c.inputs0, c.inputs1, g.inf, g.sup);
      OutsMiss(c, outs, pending, g.inf, g.sup, f);
    }
  }

  /** Numbers of outputs are new to the level. */
  lemma OutsNew(fs: seq<File>, outs: seq<File>, pending: set<nat>)
    requires forall f :: f in outs ==> f.ref in pending
    requires forall f :: f in fs ==> f.ref !in pending
    ensures AllNew(outs, fs)
  {
  }

  /** Outputs can be merged into a level whose files `ins` go: they keep off those that stay. */
  ghost predicate Landing(level: nat, base: seq<File>, ins: seq<File>, outs: seq<File>) {
    && level > 0
    && LevelOk(level, base)
    && LevelOk(1, outs)
    && AllApart(outs, Remove(base, Refs(ins)))
    && AllNew(outs, base)
    && Present(ins, base)
  }

  /** Deleting after the merge is merging with the files that stay. */
  lemma LandingShape(level: nat, base: seq<File>, ins: seq<File>, outs: seq<File>)
    requires Landing(level, base, ins, outs)
    ensures Remove(Merge(level, outs, base), Refs(ins)) == Merge(level, outs, Remove(base, Refs(ins)))
  {
    NewNotInputs(base, ins, outs);
    OkOrdered(level, base);
    MergeRemove(level, outs, base, Refs(ins));
  }

  /** The new lower level: the outputs merged with the files that stay. */
  lemma LandingOk(level: nat, base: seq<File>, ins: seq<File>, outs: seq<File>)
    requires Landing(level, base, ins, outs)
    ensures
      var rest := Remove(base, Refs(ins));
      && Remove(Merge(level, outs, base), Refs(ins)) == Merge(level, outs, rest)
      && LevelOk(level, rest) && AllNew(outs, rest)
      && LevelOk(level, Merge(level, outs, rest))
  {
    var refs := Refs(ins);
    LandingShape(level, base, ins, outs);
    RemoveOk(level, base, refs);
    forall f | f in Remove(base, refs) ensures f in base { RemoveIn(base, refs, f); }
    MergeOk(level, outs, Remove(base, refs));
  }

  lemma Lands(s: State, c: Compaction, outs: seq<File>)
    requires LevelsOk(s.files) && NumbersOk(s.files, s.pending, s.nextRef) && RunOk(s.files, c) && OutsOk(c, outs, s.pending)
    ensures Landing(c.level + 1, s.files[c.level + 1], c.inputs1, outs)
  {
    OutsApart(s.files, c, outs, s.pending);
    OutsNew(s.files[c.level + 1], outs, s.pending);
  }

  lemma FinalLevels(files: seq<seq<File>>, c: Compaction, outs: seq<File>)
    requires LevelsOk(files) && c.level + 1 < |files| && Landing(c.level + 1, files[c.level + 1], c.inputs1, outs)
    ensures LevelsOk(FinalFiles(files, c, outs))
  {
    var l, lower := c.level, files[c.level + 1];
    LandingOk(l + 1, lower, c.inputs1, outs);
    RemoveOk(l, files[l], Refs(c.inputs0));
    LevelsReplace(files, l, Remove(files[l], Refs(c.inputs0)), Remove(Merge(l + 1, outs, lower), Refs(c.inputs1)));
  }

  lemma FinalFilesIn(files: seq<seq<File>>, c: Compaction, outs: seq<File>, l: nat, g: File)
    requires c.level + 1 < |files| && l < |files| && g in FinalFiles(files, c, outs)[l]
    ensures g in files[l] || (l == c.level + 1 && g in outs)
  {
    if l == c.level {
      RemoveIn(files[l], Refs(c.inputs0), g);
    } else if l == c.level + 1 {
      RemoveIn(Merge(l, outs, files[l]), Refs(c.inputs1), g);
      MergeIn(l, outs, files[l], g);
    }
  }

  lemma FinalNumbers(s: State, c: Compaction, outs: seq<File>)
    requires NumbersOk(s.files, s.pending, s.nextRef) && c.level + 1 < |s.files| && OutsOk(c, outs, s.pending)
    ensures NumbersOk(FinalFiles(s.files, c, outs), s.pending - Refs(outs), s.nextRef)
  {
    var files' := FinalFiles(s.files, c, outs);
    forall l: nat, f: File | l < |files'| && f in files'[l] ensures f.ref < s.nextRef && f.ref !in s.pending - Refs(outs) {
      FinalFilesIn(s.files, c, outs, l, f);
    }
  }

  /** The lower inputs of `d` stay exactly the files that overlap its range when other lower inputs go
      and outputs apart from that range come. */
  lemma LowerSurvives(level: nat, base: seq<File>, refs: set<nat>, outs: seq<File>, ins: seq<File>, lo: Key, hi: Key)
    requires LowerOk(base, ins, lo, hi) && Refs(ins) !! refs && AllNew(outs, base)
    requires forall f :: f in outs ==> RangeApart(f.inf, f.sup, lo, hi)
    ensures LowerOk(Merge(level, outs, Remove(base, refs)), ins, lo, hi)
  {
    var rest := Remove(base, refs);
    PresentAfterRemove(ins, base, refs);
    PresentAfterMerge(ins, level, outs, rest);
    NewNotInputs(base, ins, outs);
    forall g | g in Merge(level, outs, rest) ensures g.ref in Refs(ins) <==> Overlaps(g, lo, hi) {
      MergeIn(level, outs, rest, g);
      if g in rest { RemoveIn(base, refs, g); }
    }
  }

  /** A compaction into a level leaves the lower inputs of another one into that level alone. */
  lemma OutsMissOther(files: seq<seq<File>>, c: Compaction, outs: seq<File>, pending: set<nat>, d: Compaction)
    requires LevelsOk(files) && RunOk(files, c) && OutsOk(c, outs, pending)
    requires RunOk(files, d) && d.level == c.level && Disjoint(c, d)
    ensures forall f :: f in outs ==> RangeApart(f.inf, f.sup, Lo(d.inputs0), Hi(d.inputs0))
  {
    var lo, hi := Lo(d.inputs0), Hi(d.inputs0);
    InputFilesOk(files, c);
    InputFilesOk(files, d);
    UppersApart(files[c.level], c, d);
    MissesOther(files[c.level + 1], c.inputs1, d.inputs1, lo, hi);
    HullApart(c.inputs0, c.inputs1, lo, hi);
    forall f | f in outs ensures RangeApart(f.inf, f.sup, lo, hi) { OutsMiss(c, outs, pending, lo, hi, f); }
  }

  lemma MissesOther(base: seq<File>, ins: seq<File>, others: seq<File>, lo: Key, hi: Key)
    requires Present(ins, base) && LowerOk(base, others, lo, hi) && Refs(ins) !! Refs(others)
    ensures forall o :: o in ins ==> RangeApart(o.inf, o.sup, lo, hi)
  {
    forall o | o in ins ensures RangeApart(o.inf, o.sup, lo, hi) {
      assert Marked(o) in base && o.ref in Refs(ins);
      assert Marked(o).ref in Refs(others) <==> Overlaps(Marked(o), lo, hi);
    }
  }

  lemma UppersApart(fs: seq<File>, c: Compaction, d: Compaction)
    requires c.level == d.level && LevelOk(c.level, fs) && UpperOk(c.level, fs, c.inputs0) && UpperOk(d.level, fs, d.inputs0)
    requires Disjoint(c, d)
    ensures RangeApart(Lo(c.inputs0), Hi(c.inputs0), Lo(d.inputs0), Hi(d.inputs0))
  {
    var f, g := c.inputs0[0], d.inputs0[0];
    assert c.inputs0 == [f] && d.inputs0 == [g];
    assert f.ref in Refs(c.inputs0) && g.ref in Refs(d.inputs0);
    assert Marked(f) in fs && Marked(g) in fs;
    SortedApart(fs, Marked(f), Marked(g));
  }

  lemma RemoveLower(fs: seq<File>, refs: set<nat>, ins: seq<File>, lo: Key, hi: Key)
    requires LowerOk(fs, ins, lo, hi) && Refs(ins) !! refs
    ensures LowerOk(Remove(fs, refs), ins, lo, hi)
  {
    PresentAfterRemove(ins, fs, refs);
    forall g | g in Remove(fs, refs) ensures g.ref in Refs(ins) <==> Overlaps(g, lo, hi) { RemoveIn(fs, refs, g); }
  }

  /** One level down: the other compaction's upper inputs stay. */
  lemma UpperSurvives(level: nat, base: seq<File>, ins: seq<File>, outs: seq<File>, others: seq<File>)
    requires Landing(level, base, ins, outs) && Present(others, base) && Refs(ins) !! Refs(others)
    ensures Present(others, Remove(Merge(level, outs, base), Refs(ins)))
  {
    LandingShape(level, base, ins, outs);
    PresentAfterRemove(others, base, Refs(ins));
    PresentAfterMerge(others, level, outs, Remove(base, Refs(ins)));
  }

  /** Same level: the other compaction keeps its inputs in the lower level. */
  lemma FinalBeside(base: seq<File>, c: Compaction, outs: seq<File>, d: Compaction)
    requires Landing(c.level + 1, base, c.inputs1, outs) && d.inputs0 != []
    requires LowerOk(base, d.inputs1, Lo(d.inputs0), Hi(d.inputs0)) && Refs(c.inputs1) !! Refs(d.inputs1)
    requires forall f :: f in outs ==> RangeApart(f.inf, f.sup, Lo(d.inputs0), Hi(d.inputs0))
    ensures LowerOk(Remove(Merge(c.level + 1, outs, base), Refs(c.inputs1)), d.inputs1, Lo(d.inputs0), Hi(d.inputs0))
  {
    LandingShape(c.level + 1, base, c.inputs1, outs);
    LowerSurvives(c.level + 1, base, Refs(c.inputs1), outs, d.inputs1, Lo(d.inputs0), Hi(d.inputs0));
  }

  lemma FinalUpper(files: seq<seq<File>>, c: Compaction, outs: seq<File>, d: Compaction)
    requires c.level + 1 < |files| && Landing(c.level + 1, files[c.level + 1], c.inputs1, outs)
    requires d.level < |files| && UpperOk(d.level, files[d.level], d.inputs0) && Disjoint(c, d)
    ensures UpperOk(d.level, FinalFiles(files, c, outs)[d.level], d.inputs0)
  {
    if d.level == c.level {
      PresentAfterRemove(d.inputs0, files[c.level], Refs(c.inputs0));
    } else if d.level == c.level + 1 {
      UpperSurvives(d.level, files[d.level], c.inputs1, outs, d.inputs0);
    }
  }

  lemma FinalLower(s: State, c: Compaction, outs: seq<File>, d: Compaction)
    requires LevelsOk(s.files) && RunOk(s.files, c) && OutsOk(c, outs, s.pending)
    requires Landing(c.level + 1, s.files[c.level + 1], c.inputs1, outs)
    requires RunOk(s.files, d) && Disjoint(c, d) && Disjoint(d, c)
    ensures LowerOk(FinalFiles(s.files, c, outs)[d.level + 1], d.inputs1, Lo(d.inputs0), Hi(d.inputs0))
  {
    if d.level == c.level {
      OutsMissOther(s.files, c, outs, s.pending, d);
      FinalBeside(s.files[c.level + 1], c, outs, d);
    } else if d.level + 1 == c.level {
      RemoveLower(s.files[c.level], Refs(c.inputs0), d.inputs1, Lo(d.inputs0), Hi(d.inputs0));
    }
  }

  lemma FinalRun(s: State, c: Compaction, outs: seq<File>, d: Compaction)
    requires LevelsOk(s.files) && RunOk(s.files, c) && OutsOk(c, outs, s.pending)
    requires Landing(c.level + 1, s.files[c.level + 1], c.inputs1, outs)
    requires RunOk(s.files, d) && Disjoint(c, d) && Disjoint(d, c)
    ensures RunOk(FinalFiles(s.files, c, outs), d)
  {
    FinalUpper(s.files, c, outs, d);
    FinalLower(s, c, outs, d);
  }

  lemma FinalizeKeeps(s: State, id: nat, outs: seq<File>)
    requires Inv(s) && Enabled(s, Finalize(id, outs))
    ensures Inv(FinalState(s, id, outs))
  {
    var c := s.running[id];
    var s' := FinalState(s, id, outs);
    Lands(s, c, outs);
    FinalLevels(s.files, c, outs);
    FinalNumbers(s, c, outs);
    forall f | f in s'.files[0] ensures f.minXip <= s.minXip { FinalFilesIn(s.files, c, outs, 0, f); }
    forall j | j in s'.running ensures RunOk(s'.files, s'.running[j]) { FinalRun(s, c, outs, s.running[j]); }
  }

  lemma StepKeeps(s: State, e: Event)
    requires Inv(s) && Enabled(s, e)
    ensures Inv(Apply(s, e))
  {
    match e
    case NewNumber => NumberKeeps(s);
    case AddFlush(f) => FlushKeeps(s, f);
    case Pick(id, c) => PickKeeps(s, id, c);
    case Finalize(id, outs) => FinalizeKeeps(s, id, outs);
  }
}

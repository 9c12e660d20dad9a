/** What the version set promises over all its runs. */
module LsmTheorems {
  import opened Options
  import opened Files
  import opened Levels
  import opened Lsm
  import opened LsmSteps

  // ----- one step and the lookup -----

  /** Two adjacent levels may be replaced by others that answer alike. */
  lemma {:induction false} LookupReplace(files: seq<seq<File>>, l: nat, a: seq<File>, b: seq<File>, k: Key)
    requires l + 1 < |files|
    requires Or(Hit(files[l], k), Hit(files[l + 1], k)) == Or(Hit(a, k), Hit(b, k))
    ensures Lookup(files[l := a][l + 1 := b], k) == Lookup(files, k)
  {
    var files' := files[l := a][l + 1 := b];
    if l == 0 {
      assert files'[1..][1..] == files[1..][1..];
    } else {
      assert files'[1..] == files[1..][l - 1 := a][l := b];
      LookupReplace(files[1..], l - 1, a, b, k);
    }
  }

  /** Marking inputs changes no lookup. */
  lemma PickLookup(files: seq<seq<File>>, c: Compaction, k: Key)
    requires c.level + 1 < |files|
    ensures Lookup(MarkFiles(files, c), k) == Lookup(files, k)
  {
    var a, b := MarkLevel(files[c.level], Refs(c.inputs0)), MarkLevel(files[c.level + 1], Refs(c.inputs1));
    MarkHit(files[c.level], Refs(c.inputs0), k);
    MarkHit(files[c.level + 1], Refs(c.inputs1), k);
    LookupReplace(files, c.level, a, b, k);
  }

  /** A flush overlays its table. */
  lemma FlushLookup(s: State, f: File, k: Key)
    requires NewestOk(s.files, s.minXip) && f.minXip > s.minXip
    ensures Lookup(FlushFiles(s.files, f), k) == Or(Find(f.run, k), Lookup(s.files, k))
  {
    FlushFront(s, f);
    HitAppend([f], s.files[0], k);
    assert s.files[0 := [f] + s.files[0]][1..] == s.files[1..];
  }

  /** The oldest part of level 0 can be read after the rest. */
  lemma OldestHit(fs: seq<File>, ins: seq<File>, n: nat, k: Key)
    requires DistinctRefs(fs) && n < |fs| && fs[n..] == MarkLevel(ins, Refs(ins))
    ensures Hit(fs, k) == Or(Hit(Remove(fs, Refs(ins)), k), Hit(ins, k))
  {
    var refs := Refs(ins);
    forall i | 0 <= i < |fs| ensures fs[i].ref in refs <==> i >= n {
      if i >= n {
        assert fs[i] == fs[n..][i - n] == MarkFile(ins[i - n], refs);
      } else if fs[i].ref in refs {
        var f :| f in ins && f.ref == fs[i].ref;
        var j :| 0 <= j < |ins| && ins[j] == f;
        assert fs[n + j] == fs[n..][j];
        RefsAt(fs, i, n + j);
      }
    }
    forall f | f in fs[..n] ensures f.ref !in refs {
      var i :| 0 <= i < n && fs[i] == f;
    }
    forall f | f in fs[n..] ensures f.ref in refs {
      var i :| n <= i < |fs| && fs[i] == f;
    }
    assert fs == fs[..n] + fs[n..];
    RemoveAppend(fs[..n], fs[n..], refs);
    RemoveNone(fs[..n], refs);
    RemoveAll(fs[n..], refs);
    assert Remove(fs, refs) == fs[..n];
    MarkHit(ins, refs, k);
    HitAppend(fs[..n], fs[n..], k);
  }

  /** The one upper input of a deeper level can be read after the rest. */
  lemma SingleHit(level: nat, fs: seq<File>, ins: seq<File>, k: Key)
    requires level > 0 && LevelOk(level, fs) && UpperOk(level, fs, ins)
    ensures Hit(fs, k) == Or(Hit(Remove(fs, Refs(ins)), k), Hit(ins, k))
  {
    var f := ins[0];
    var rest := Remove(fs, Refs(ins));
    assert ins == [f] && Marked(f) in fs;
    if Find(f.run, k).Some? {
      HitAny(fs, Marked(f), k);
      FindIn(f.run, k);
      forall g | g in rest ensures Find(g.run, k).None? {
        RemoveIn(fs, Refs(ins), g);
        StaysApart(level, fs, ins, g);
        FindIn(g.run, k);
      }
      HitNone(rest, k);
    } else {
      forall g | g in fs && g.ref in Refs(ins) ensures Find(g.run, k).None? { SameRef(fs, g, Marked(f)); }
      RemoveMisses(fs, Refs(ins), k);
    }
  }

  lemma UpperHit(level: nat, fs: seq<File>, ins: seq<File>, k: Key)
    requires LevelOk(level, fs) && UpperOk(level, fs, ins)
    ensures Hit(fs, k) == Or(Hit(Remove(fs, Refs(ins)), k), Hit(ins, k))
  {
    if level == 0 {
      var n: nat :| n < |fs| && fs[n..] == MarkLevel(ins, Refs(ins));
      OldestHit(fs, ins, n, k);
    } else {
      SingleHit(level, fs, ins, k);
    }
  }

  /** The new lower level answers as the upper inputs and then the level did. */
  lemma LowerHit(c: Compaction, base: seq<File>, outs: seq<File>, k: Key)
    requires Landing(c.level + 1, base, c.inputs1, outs) && Hit(outs, k) == Hit(c.inputs0 + c.inputs1, k)
    ensures Hit(Remove(Merge(c.level + 1, outs, base), Refs(c.inputs1)), k) == Or(Hit(c.inputs0, k), Hit(base, k))
  {
    var rest := Remove(base, Refs(c.inputs1));
    LandingOk(c.level + 1, base, c.inputs1, outs);
    MergeHit(c.level + 1, outs, rest, k);
    HitAppend(c.inputs0, c.inputs1, k);
    forall f | f in c.inputs1 ensures exists g :: g in base && g.ref == f.ref && g.run == f.run {
      assert Marked(f) in base;
    }
    forall g | g in base && g.ref in Refs(c.inputs1) ensures exists f :: f in c.inputs1 && f.run == g.run {
      var f :| f in c.inputs1 && f.ref == g.ref;
      SameRef(base, g, Marked(f));
    }
    RemoveHit(base, c.inputs1, k);
  }

  lemma FinalLookup(files: seq<seq<File>>, c: Compaction, outs: seq<File>, k: Key)
    requires c.level + 1 < |files| && LevelOk(c.level, files[c.level]) && UpperOk(c.level, files[c.level], c.inputs0)
    requires Landing(c.level + 1, files[c.level + 1], c.inputs1, outs) && Hit(outs, k) == Hit(c.inputs0 + c.inputs1, k)
    ensures Lookup(FinalFiles(files, c, outs), k) == Lookup(files, k)
  {
    var upper, lower := files[c.level], files[c.level + 1];
    UpperHit(c.level, upper, c.inputs0, k);
    LowerHit(c, lower, outs, k);
    LookupReplace(files, c.level, Remove(upper, Refs(c.inputs0)),
                  Remove(Merge(c.level + 1, outs, lower), Refs(c.inputs1)), k);
  }

  /** Finalizing a compaction changes no lookup. */
  lemma FinalizeLookup(s: State, id: nat, outs: seq<File>, k: Key)
    requires Inv(s) && Enabled(s, Finalize(id, outs))
    ensures Lookup(FinalState(s, id, outs).files, k) == Lookup(s.files, k)
  {
    var c := s.running[id];
    Lands(s, c, outs);
    assert LevelOk(c.level, s.files[c.level]);
    assert Hit(outs, k) == Hit(c.inputs0 + c.inputs1, k);
    FinalLookup(s.files, c, outs, k);
  }

  // ----- runs -----

  ghost predicate ValidRun(s: State, es: seq<Event>)
    decreases |es|
  {
    es != [] ==> Enabled(s, es[0]) && ValidRun(Apply(s, es[0]), es[1..])
  }

  ghost function Exec(s: State, es: seq<Event>): State
    requires ValidRun(s, es)
    decreases |es|
  {
    if es == [] then s else Exec(Apply(s, es[0]), es[1..])
  }

  /** What the flushes of a run wrote for a key, the last one first; `v` is what was there before. */
  function Written(es: seq<Event>, v: Option<Value>, k: Key): Option<Value> {
    if es == [] then v
    else Written(es[1..], if es[0].AddFlush? then Or(Find(es[0].f.run, k), v) else v, k)
  }

  lemma StepLookup(s: State, e: Event, k: Key)
    requires Inv(s) && Enabled(s, e)
    ensures Lookup(Apply(s, e).files, k) == if e.AddFlush? then Or(Find(e.f.run, k), Lookup(s.files, k)) else Lookup(s.files, k)
  {
    match e
    case NewNumber =>
    case AddFlush(f) => FlushLookup(s, f, k);
    case Pick(id, c) => PickLookup(s.files, c, k);
    case Finalize(id, outs) => FinalizeLookup(s, id, outs, k);
  }

  /** Whatever compactions run between and beside them, a lookup returns what the last flush that has
      the key wrote; levels stay in order and inputs of running compactions stay in place. */
  lemma {:induction false} LookupIsWritten(s: State, es: seq<Event>, k: Key)
    requires Inv(s) && ValidRun(s, es)
    ensures Inv(Exec(s, es))
    ensures Lookup(Exec(s, es).files, k) == Written(es, Lookup(s.files, k), k)
    decreases |es|
  {
    if es != [] {
      StepKeeps(s, es[0]);
      StepLookup(s, es[0], k);
      LookupIsWritten(Apply(s, es[0]), es[1..], k);
    }
  }

  ghost predicate Reachable(s: State) {
    exists levels: nat, es :: levels > 0 && ValidRun(Init(levels), es) && Exec(Init(levels), es) == s
  }

  lemma ReachableInv(s: State)
    requires Reachable(s)
    ensures Inv(s)
  {
    var levels: nat, es :| levels > 0 && ValidRun(Init(levels), es) && Exec(Init(levels), es) == s;
    InitInv(levels);
    LookupIsWritten(Init(levels), es, 0);
  }

  /** Level 0 is in descending order of `min_xip`, deeper levels are ascending and disjoint. */
  lemma LevelsStaySorted(s: State, l: nat, i: nat, j: nat)
    requires Reachable(s) && l < |s.files| && i < j < |s.files[l]|
    ensures if l == 0 then s.files[0][i].minXip > s.files[0][j].minXip else s.files[l][i].sup < s.files[l][j].inf
  {
    ReachableInv(s);
    assert LevelOk(l, s.files[l]);
    if l == 0 { NewestAt(s.files[0], i, j); } else { SortedAt(s.files[l], i, j); }
  }

  ghost predicate Clear(fs: seq<File>, c: Compaction)
    requires c.inputs0 != []
  {
    var ins := c.inputs0 + c.inputs1;
    forall g :: g in fs && g.ref !in Refs(c.inputs1) ==> RangeApart(Lo(ins), Hi(ins), g.inf, g.sup)
  }

  lemma HullClear(files: seq<seq<File>>, c: Compaction)
    requires LevelsOk(files) && RunOk(files, c)
    ensures Clear(files[c.level + 1], c)
  {
    var base, ins := files[c.level + 1], c.inputs0 + c.inputs1;
    assert LevelOk(c.level + 1, base);
    InputFilesOk(files, c);
    forall g | g in base && g.ref !in Refs(c.inputs1) ensures RangeApart(Lo(ins), Hi(ins), g.inf, g.sup) {
      assert FileOk(g);
      StaysApart(c.level + 1, base, c.inputs1, g);
      HullApart(c.inputs0, c.inputs1, g.inf, g.sup);
    }
  }

  /** No file of the lower level outside the inputs touches the hull of a running compaction's inputs. */
  lemma HullIsClear(s: State, id: nat)
    requires Reachable(s) && id in s.running
    ensures s.running[id].level + 1 < |s.files| && s.running[id].inputs0 != []
    ensures Clear(s.files[s.running[id].level + 1], s.running[id])
  {
    ReachableInv(s);
    HullClear(s.files, s.running[id]);
  }

  /** A compaction's inputs at a level. */
  function InputsAt(c: Compaction, l: nat): seq<File> {
    if l == c.level then c.inputs0 else if l == c.level + 1 then c.inputs1 else []
  }

  lemma InputsPresent(files: seq<seq<File>>, c: Compaction, l: nat)
    requires RunOk(files, c) && l < |files|
    ensures Present(InputsAt(c, l), files[l])
  {
  }

  lemma InputsDisjoint(c: Compaction, d: Compaction, l: nat)
    requires Disjoint(c, d) && Disjoint(d, c)
    ensures Refs(InputsAt(c, l)) !! Refs(InputsAt(d, l))
  {
  }

  /** Inputs of running compactions are in the version and marked; no two compactions share one. */
  lemma InputsStay(s: State, i: nat, l: nat)
    requires Reachable(s) && i in s.running && l < |s.files|
    ensures forall f :: f in InputsAt(s.running[i], l) ==> Marked(f) in s.files[l]
    ensures forall j :: j in s.running && j != i ==> Refs(InputsAt(s.running[i], l)) !! Refs(InputsAt(s.running[j], l))
  {
    ReachableInv(s);
    InputsPresent(s.files, s.running[i], l);
    forall j | j in s.running && j != i ensures Refs(InputsAt(s.running[i], l)) !! Refs(InputsAt(s.running[j], l)) {
      InputsDisjoint(s.running[i], s.running[j], l);
    }
  }
}

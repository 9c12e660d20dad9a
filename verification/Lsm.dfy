/**
 The version set as a state machine: level-0 installs by flushes, and compactions that are picked,
 run for a while and are then finalized, with any interleaving of the three.
 */
module Lsm {
  import opened Options
  import opened Files
  import opened Levels

  /** `inputs0` are files of `level`, `inputs1` files of the level below it, as they were when picked. */
  datatype Compaction = Compaction(level: nat, inputs0: seq<File>, inputs1: seq<File>)

  /** `pending` are the file numbers that were handed out and not yet used in an edit. */
  datatype State = State(
    files: seq<seq<File>>,
    minXip: nat,
    nextRef: nat,
    pending: set<nat>,
    running: map<nat, Compaction>
  )

  datatype Event =
    | NewNumber
    | AddFlush(f: File)
    | Pick(id: nat, c: Compaction)
    | Finalize(id: nat, outs: seq<File>)

  function Init(levels: nat): State {
    State(seq(levels, _ => []), 0, 2, {}, map[])
  }

  // ----- ranges and overlap -----

  function Lo(fs: seq<File>): Key
    requires fs != []
  {
    if |fs| == 1 then fs[0].inf
    else
      var rest := Lo(fs[1..]);
      if fs[0].inf < rest then fs[0].inf else rest
  }

  function Hi(fs: seq<File>): Key
    requires fs != []
  {
    if |fs| == 1 then fs[0].sup
    else
      var rest := Hi(fs[1..]);
      if fs[0].sup > rest then fs[0].sup else rest
  }

  lemma {:induction false} HullBounds(fs: seq<File>)
    requires fs != []
    ensures forall f :: f in fs ==> Lo(fs) <= f.inf && f.sup <= Hi(fs)
    ensures exists f :: f in fs && Lo(fs) == f.inf
    ensures exists f :: f in fs && Hi(fs) == f.sup
  {
    assert fs[0] in fs;
    if |fs| > 1 {
      HullBounds(fs[1..]);
      assert forall f :: f in fs[1..] ==> f in fs;
    }
  }

  /** The files of a level that overlap a range, in order. */
  function Overlapping(fs: seq<File>, lo: Key, hi: Key): seq<File> {
    if fs == [] then []
    else if Overlaps(fs[0], lo, hi) then [fs[0]] + Overlapping(fs[1..], lo, hi)
    else Overlapping(fs[1..], lo, hi)
  }

  lemma {:induction false} OverlappingIn(fs: seq<File>, lo: Key, hi: Key, f: File)
    ensures f in Overlapping(fs, lo, hi) <==> f in fs && Overlaps(f, lo, hi)
  {
    if fs != [] { OverlappingIn(fs[1..], lo, hi, f); }
  }

  lemma {:induction false} OverlappingOk(level: nat, fs: seq<File>, lo: Key, hi: Key)
    requires level > 0 && LevelOk(level, fs)
    ensures LevelOk(level, Overlapping(fs, lo, hi))
  {
    if fs != [] {
      assert forall g :: g in fs[1..] ==> g in fs;
      OverlappingOk(level, fs[1..], lo, hi);
      forall g | g in Overlapping(fs[1..], lo, hi) ensures g in fs[1..] { OverlappingIn(fs[1..], lo, hi, g); }
      if Overlaps(fs[0], lo, hi) {
        assert fs[0] in fs && Overlapping(fs, lo, hi)[1..] == Overlapping(fs[1..], lo, hi);
      }
    }
  }

  // ----- steps -----

  predicate L0Running(running: map<nat, Compaction>) {
    exists id :: id in running && running[id].level == 0
  }

  /** What a choice of inputs must satisfy. */
  ghost predicate Chosen(files: seq<seq<File>>, c: Compaction) {
    && c.level + 1 < |files|
    && c.inputs0 != []
    && (forall f :: f in c.inputs0 ==> !f.busy && f in files[c.level])
    && (c.level == 0 ==> exists n: nat :: n < |files[0]| && c.inputs0 == files[0][n..])
    && (c.level > 0 ==> |c.inputs0| == 1)
    && c.inputs1 == Overlapping(files[c.level + 1], Lo(c.inputs0), Hi(c.inputs0))
    && (forall f :: f in c.inputs1 ==> !f.busy)
  }

  /** Level 0 has at most one compaction at a time. */
  ghost predicate PickOk(files: seq<seq<File>>, running: map<nat, Compaction>, c: Compaction) {
    Chosen(files, c) && (c.level == 0 ==> !L0Running(running))
  }

  /** The output files hold, in order, what a lookup through the inputs finds. */
  ghost predicate OutsOk(c: Compaction, outs: seq<File>, pending: set<nat>) {
    && LevelOk(1, outs)
    && (forall f :: f in outs ==> f.ref in pending && !f.busy && f.minXip == 0)
    && (forall f :: f in outs ==> Find(f.run, f.inf).Some? && Find(f.run, f.sup).Some?)
    && (forall k :: Hit(outs, k) == Hit(c.inputs0 + c.inputs1, k))
  }

  ghost predicate Enabled(s: State, e: Event) {
    match e
    case NewNumber => true
    case AddFlush(f) => |s.files| > 0 && f.ref in s.pending && f.minXip > s.minXip && FileOk(f) && !f.busy
    case Pick(id, c) => id !in s.running && PickOk(s.files, s.running, c)
    case Finalize(id, outs) =>
      id in s.running && s.running[id].level + 1 < |s.files| && OutsOk(s.running[id], outs, s.pending)
  }

  function FlushFiles(files: seq<seq<File>>, f: File): seq<seq<File>>
    requires |files| > 0
  {
    files[0 := Merge(0, [f], files[0])]
  }

  function MarkFiles(files: seq<seq<File>>, c: Compaction): (r: seq<seq<File>>)
    requires c.level + 1 < |files|
    ensures |r| == |files|
  {
    files[c.level := MarkLevel(files[c.level], Refs(c.inputs0))]
         [c.level + 1 := MarkLevel(files[c.level + 1], Refs(c.inputs1))]
  }

  function FinalFiles(files: seq<seq<File>>, c: Compaction, outs: seq<File>): (r: seq<seq<File>>)
    requires c.level + 1 < |files|
    ensures |r| == |files|
  {
    files[c.level := Remove(files[c.level], Refs(c.inputs0))]
         [c.level + 1 := Remove(Merge(c.level + 1, outs, files[c.level + 1]), Refs(c.inputs1))]
  }

  function NumberState(s: State): State {
    s.(nextRef := s.nextRef + 1, pending := s.pending + {s.nextRef})
  }

  function FlushState(s: State, f: File): State
    requires |s.files| > 0
  {
    s.(files := FlushFiles(s.files, f), minXip := f.minXip, pending := s.pending - {f.ref})
  }

  function PickState(s: State, id: nat, c: Compaction): State
    requires c.level + 1 < |s.files|
  {
    s.(files := MarkFiles(s.files, c), running := s.running[id := c])
  }

  function FinalState(s: State, id: nat, outs: seq<File>): State
    requires id in s.running && s.running[id].level + 1 < |s.files|
  {
    s.(files := FinalFiles(s.files, s.running[id], outs), running := s.running - {id}, pending := s.pending - Refs(outs))
  }

  ghost function Apply(s: State, e: Event): State
    requires Enabled(s, e)
  {
    match e
    case NewNumber => NumberState(s)
    case AddFlush(f) => FlushState(s, f)
    case Pick(id, c) => PickState(s, id, c)
    case Finalize(id, outs) => FinalState(s, id, outs)
  }

  // ----- lookup: the levels from the top -----

  function Lookup(files: seq<seq<File>>, k: Key): Option<Value> {
    if files == [] then None else Or(Hit(files[0], k), Lookup(files[1..], k))
  }

  // ----- invariant -----

  ghost predicate LevelsOk(files: seq<seq<File>>) {
    forall l: nat :: l < |files| ==> LevelOk(l, files[l])
  }

  /** File numbers in use were handed out and are no longer pending. */
  ghost predicate NumbersOk(files: seq<seq<File>>, pending: set<nat>, nextRef: nat) {
    && (forall r :: r in pending ==> r < nextRef)
    && forall l: nat, f :: l < |files| && f in files[l] ==> f.ref < nextRef && f.ref !in pending
  }

  ghost predicate NewestOk(files: seq<seq<File>>, minXip: nat) {
    |files| > 0 && forall f :: f in files[0] ==> f.minXip <= minXip
  }

  function Marked(f: File): File { f.(busy := true) }

  ghost predicate Present(ins: seq<File>, fs: seq<File>) {
    forall f :: f in ins ==> Marked(f) in fs
  }

  /** The inputs of the upper level: one file, or the oldest part of level 0. */
  ghost predicate UpperOk(level: nat, fs: seq<File>, ins: seq<File>) {
    && ins != []
    && (forall f :: f in ins ==> FileOk(f))
    && Present(ins, fs)
    && if level == 0 then exists n: nat :: n < |fs| && fs[n..] == MarkLevel(ins, Refs(ins)) else |ins| == 1
  }

  /** The inputs of the lower level: exactly its files that overlap the range. */
  ghost predicate LowerOk(fs: seq<File>, ins: seq<File>, lo: Key, hi: Key) {
    && LevelOk(1, ins)
    && Present(ins, fs)
    && (forall f :: f in ins ==> Overlaps(f, lo, hi))
    && forall g :: g in fs ==> (g.ref in Refs(ins) <==> Overlaps(g, lo, hi))
  }

  ghost predicate RunOk(files: seq<seq<File>>, c: Compaction) {
    && c.level + 1 < |files|
    && UpperOk(c.level, files[c.level], c.inputs0)
    && LowerOk(files[c.level + 1], c.inputs1, Lo(c.inputs0), Hi(c.inputs0))
  }

  ghost predicate Disjoint(c: Compaction, d: Compaction) {
    && (c.level == d.level ==> c.level > 0 && Refs(c.inputs0) !! Refs(d.inputs0) && Refs(c.inputs1) !! Refs(d.inputs1))
    && (c.level + 1 == d.level ==> Refs(c.inputs1) !! Refs(d.inputs0))
  }

  ghost predicate RunningOk(files: seq<seq<File>>, running: map<nat, Compaction>) {
    && (forall id :: id in running ==> RunOk(files, running[id]))
    && forall i, j :: i in running && j in running && i != j ==> Disjoint(running[i], running[j])
  }

  ghost predicate Inv(s: State) {
    && LevelsOk(s.files)
    && NumbersOk(s.files, s.pending, s.nextRef)
    && NewestOk(s.files, s.minXip)
    && RunningOk(s.files, s.running)
  }

  lemma InitInv(levels: nat)
    requires levels > 0
    ensures Inv(Init(levels))
  {
  }
}

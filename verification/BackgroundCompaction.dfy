/** A compaction from its choice to its end: picked, merged into new files, and installed. */
module BackgroundCompaction {
  import opened Options
  import opened Files
  import opened Lsm
  import opened LsmTheorems
  import opened MergingIter
  import opened Compacting
  import opened VersionBuilder
  import opened VersionSet
  import VersionPick

  /** Takes numbers for the files to write. */
  method HandOut(vs: VersionSet, count: nat) returns (numbers: seq<nat>)
    requires vs.Valid()
    modifies vs
    ensures vs.Valid() && |numbers| == count && DistinctNumbers(numbers)
    ensures forall n :: n in numbers ==> n in vs.pending
    ensures vs.current == old(vs.current) && vs.running == old(vs.running)
  {
    numbers := [];
    for i := 0 to count
      invariant vs.Valid() && |numbers| == i && DistinctNumbers(numbers)
      invariant forall n :: n in numbers ==> n in vs.pending
      invariant vs.current == old(vs.current) && vs.running == old(vs.running)
    {
      var n := vs.NewFileNumber();
      numbers := numbers + [n];
    }
  }

  lemma PickedInputs(s: State, id: nat)
    requires Inv(s) && id in s.running
    ensures InputsOk(s.running[id]) && s.running[id].level + 1 < |s.files|
  {
    RunningInputs(s.files, s.running[id]);
  }

  /** A whole compaction changes the lookup of no key: of the first level where one is due and possible the
      outputs replace the inputs; if there is none, nothing happens. */
  method Compact(vs: VersionSet, due: seq<bool>, sizeOf: nat -> nat, full: Run -> bool, ghost id: nat)
      returns (c: Option<Compaction>, ghost outs: seq<File>)
    requires vs.Valid() && |due| == |vs.current| && !due[|due| - 1] && id !in vs.running
    modifies vs
    ensures vs.Valid() && forall k :: Lookup(vs.current, k) == old(Lookup(vs.current, k))
    ensures c == None ==> vs.current == old(vs.current)
    ensures forall l: nat :: VersionPick.Eligible(old(vs.current), due, old(vs.level0InProgress), l) ==> c.Some? && c.value.level <= l
    ensures c.Some? ==>
      && PickOk(old(vs.current), old(vs.running), c.value) && VersionPick.Eligible(old(vs.current), due, old(vs.level0InProgress), c.value.level)
      && vs.current == FinalFiles(MarkFiles(old(vs.current), c.value), c.value, outs)
      && vs.running == old(vs.running)
  {
    hide VersionPick.Eligible, Inv, PickOk, OutsOk, Lookup, Dedup, Drain, InputSources, FinalFiles, MarkFiles, FinalEdit, L0Running, InputsOk;
    outs := [];
    ghost var files := vs.current;
    c := vs.PickCompaction(due, id);
    if c == None { return; }
    forall k ensures Lookup(vs.current, k) == Lookup(files, k) { PickLookup(files, c.value, k); }
    PickedInputs(vs.Abs(), id);
    var numbers := HandOut(vs, |Dedup(Drain(InputSources(c.value)))|);
    var edit, written := StartCompaction(c.value, numbers, seq(|numbers|, i requires 0 <= i => sizeOf(i)), full, vs.pending);
    outs := written;
    vs.FinalizeCompaction(c.value, edit, id, outs);
  }
}

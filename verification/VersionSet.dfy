/** The version set: the current version, and what flushes and compactions do to it under its lock. */
module VersionSet {
  import opened Options
  import opened Files
  import opened Levels
  import opened Lsm
  import opened LsmSteps
  import opened LsmTheorems
  import opened VersionBuilder
  import VersionGet
  import VersionPick

  /** Only one running compaction starts at level 0. */
  lemma LastLevel0(files: seq<seq<File>>, running: map<nat, Compaction>, id: nat)
    requires RunningOk(files, running) && id in running
    ensures L0Running(running - {id}) <==> L0Running(running) && running[id].level != 0
  {
    if L0Running(running) && running[id].level != 0 {
      var i :| i in running && running[i].level == 0;
      assert i in running - {id};
    }
    if L0Running(running - {id}) {
      var i :| i in running - {id} && (running - {id})[i].level == 0;
      assert Disjoint(running[i], running[id]);
    }
  }

  lemma OneMoreLevel0(running: map<nat, Compaction>, id: nat, c: Compaction)
    requires id !in running
    ensures L0Running(running[id := c]) <==> L0Running(running) || c.level == 0
  {
    var more := running[id := c];
    if L0Running(running) {
      var i :| i in running && running[i].level == 0;
      assert i in more && more[i].level == 0;
    }
    if c.level == 0 { assert id in more && more[id].level == 0; }
  }

  lemma Finalized(files: seq<seq<File>>, c: Compaction, outs: seq<File>)
    requires c.level + 1 < |files| && LevelOk(1, outs)
    ensures InRange(FinalEdit(c, outs), |files|) && FinalFiles(files, c, outs) == Edited(files, FinalEdit(c, outs))
  {
    OkOrdered(c.level + 1, outs);
    FinalEdited(files, c, outs);
  }

  lemma SameLookups(s: State, id: nat, outs: seq<File>)
    requires Inv(s) && Enabled(s, Finalize(id, outs))
    ensures forall k :: Lookup(FinalState(s, id, outs).files, k) == Lookup(s.files, k)
  {
    forall k ensures Lookup(FinalState(s, id, outs).files, k) == Lookup(s.files, k) { FinalizeLookup(s, id, outs, k); }
  }

  lemma Registered(files: seq<seq<File>>, c: Compaction)
    requires c.level + 1 < |files|
    ensures InRange(PickEdit(c), |files|) && MarkFiles(files, c) == Edited(files, PickEdit(c))
  {
    PickEdited(files, c);
  }

  /** The marks for the inputs of a compaction. */
  method CollectMarks(c: Compaction) returns (marks: seq<(nat, nat)>)
    ensures marks == PickEdit(c).marks
  {
    marks := [];
    for i := 0 to |c.inputs0|
      invariant marks == MarksOf(c.level, c.inputs0[..i])
    {
      marks := marks + [(c.level, c.inputs0[i].ref)];
    }
    for i := 0 to |c.inputs1|
      invariant marks == MarksOf(c.level, c.inputs0) + MarksOf(c.level + 1, c.inputs1[..i])
    {
      marks := marks + [(c.level + 1, c.inputs1[i].ref)];
    }
  }

  /** The next version: a builder takes the edit and saves onto the base. */
  method BuildVersion(base: seq<seq<File>>, edit: VersionEdit) returns (v: seq<seq<File>>)
    requires InRange(edit, |base|)
    ensures v == Edited(base, edit)
  {
    var builder := new VersionBuilder(|base|);
    builder.ApplyEdit(edit);
    v := builder.SaveTo(base);
  }

  class VersionSet {
    var current: seq<seq<File>>
    var minXip: nat
    var nextFileNum: nat
    var level0InProgress: bool
    ghost var pending: set<nat>
    ghost var running: map<nat, Compaction>

    ghost function Abs(): State
      reads this
    {
      State(current, minXip, nextFileNum, pending, running)
    }

    ghost predicate Valid()
      reads this
    {
      Inv(Abs()) && (level0InProgress <==> L0Running(running))
    }

    constructor (levels: nat)
      requires levels > 0
      ensures Valid() && Abs() == Init(levels)
    {
      current := seq(levels, _ => []);
      minXip := 0;
      nextFileNum := 2;
      level0InProgress := false;
      pending := {};
      running := map[];
    }

    method Get(k: Key) returns (v: Option<Value>)
      requires Valid()
      ensures v == Lookup(current, k)
    {
      v := VersionGet.Get(current, k);
    }

    method NewFileNumber() returns (n: nat)
      requires Valid()
      modifies this
      ensures Valid() && Abs() == NumberState(old(Abs())) && n in pending && n !in old(pending)
    {
      NumberKeeps(Abs());
      n := nextFileNum;
      nextFileNum := nextFileNum + 1;
      pending := pending + {n};
    }

    /** Applies an edit to the current version. */
    method LogAndApply(edit: VersionEdit)
      requires InRange(edit, |current|) && (edit.minXip.Some? ==> edit.minXip.value >= minXip)
      modifies this
      ensures current == Edited(old(current), edit)
      ensures minXip == if edit.minXip.Some? then edit.minXip.value else old(minXip)
      ensures unchanged(`nextFileNum) && unchanged(`level0InProgress) && unchanged(`pending) && unchanged(`running)
    {
      var newMinXip := if edit.minXip.Some? then edit.minXip.value else minXip;
      current := BuildVersion(current, edit);
      minXip := newMinXip;
    }

    /** The end of a flush: its file becomes the first of level 0, and its `min_xip` the newest. */
    method InstallFlush(f: File)
      requires Valid() && Enabled(Abs(), AddFlush(f))
      modifies this
      ensures Valid() && Abs() == FlushState(old(Abs()), f)
      ensures current[0] == [f] + old(current[0])
      ensures forall k :: Lookup(current, k) == Or(Find(f.run, k), old(Lookup(current, k)))
    {
      ghost var s := Abs();
      FlushKeeps(s, f);
      FlushFront(s, f);
      forall k ensures Lookup(FlushFiles(s.files, f), k) == Or(Find(f.run, k), Lookup(s.files, k)) {
        FlushLookup(s, f, k);
      }
      FlushEdited(current, f, f.minXip);
      LogAndApply(VersionEdit(Some(f.minXip), [(0, f)], {}, []));
      pending := pending - {f.ref};
    }

    /** Marks the inputs of a compaction, so that no other takes them. */
    method RegisterCompaction(c: Compaction, ghost id: nat)
      requires c.level + 1 < |current|
      modifies this
      ensures Abs() == PickState(old(Abs()), id, c)
      ensures level0InProgress == (old(level0InProgress) || c.level == 0)
    {
      Registered(current, c);
      if c.level == 0 { level0InProgress := true; }
      var marks := CollectMarks(c);
      current := BuildVersion(current, VersionEdit(None, [], {}, marks));
      running := running[id := c];
    }

    /** Picks and registers a compaction; `due` says for which levels the score asks for one. */
    method PickCompaction(due: seq<bool>, ghost id: nat) returns (r: Option<Compaction>)
      requires Valid() && |due| == |current| && !due[|due| - 1] && id !in running
      modifies this
      ensures Valid()
      ensures r.None? ==> Abs() == old(Abs())
      ensures r.Some? ==> PickOk(old(current), old(running), r.value) && Abs() == PickState(old(Abs()), id, r.value)
      ensures r.Some? ==> VersionPick.Eligible(old(current), due, old(level0InProgress), r.value.level)
      ensures forall l: nat :: VersionPick.Eligible(old(current), due, old(level0InProgress), l) ==> r.Some? && r.value.level <= l
    {
      r := VersionPick.PickFrom(current, due, level0InProgress);
      if r.Some? {
        PickKeeps(Abs(), id, r.value);
        OneMoreLevel0(running, id, r.value);
        RegisterCompaction(r.value, id);
      }
    }

    /** Applies the edit of a finished compaction. */
    method ReplaceInputs(c: Compaction, edit: VersionEdit, ghost id: nat, ghost outs: seq<File>)
      requires c.level + 1 < |current| && LevelOk(1, outs) && edit == FinalEdit(c, outs) && id in running && running[id] == c
      modifies this
      ensures Abs() == FinalState(old(Abs()), id, outs)
      ensures level0InProgress == (old(level0InProgress) && c.level != 0)
    {
      Finalized(current, c, outs);
      if c.level == 0 { level0InProgress := false; }
      LogAndApply(edit);
      pending, running := pending - Refs(outs), running - {id};
    }

    /** The end of a compaction: its outputs replace its inputs, and no lookup changes. */
    method FinalizeCompaction(c: Compaction, edit: VersionEdit, ghost id: nat, ghost outs: seq<File>)
      requires Valid() && Enabled(Abs(), Finalize(id, outs)) && running[id] == c && edit == FinalEdit(c, outs)
      modifies this
      ensures Valid() && Abs() == FinalState(old(Abs()), id, outs)
      ensures forall k :: Lookup(current, k) == old(Lookup(current, k))
    {
      FinalizeKeeps(Abs(), id, outs);
      SameLookups(Abs(), id, outs);
      LastLevel0(current, running, id);
      ReplaceInputs(c, edit, id, outs);
    }
  }
}

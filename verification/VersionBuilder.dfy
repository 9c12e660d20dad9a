/** Building the next version from the current one and an edit. */
module VersionBuilder {
  import opened Options
  import opened Files
  import opened Levels
  import opened Lsm

  /** Files are named by level and number. */
  datatype VersionEdit = VersionEdit(
    minXip: Option<nat>,
    addFiles: seq<(nat, File)>,
    deleted: set<(nat, nat)>,
    marks: seq<(nat, nat)>
  )

  // ----- sorting what was added -----

  function InsertFile(level: nat, f: File, fs: seq<File>): seq<File> {
    if fs == [] || !Before(level, fs[0], f) then [f] + fs else [fs[0]] + InsertFile(level, f, fs[1..])
  }

  /** A stable sort by the order of the level. */
  function SortLevel(level: nat, fs: seq<File>): seq<File> {
    if fs == [] then [] else InsertFile(level, fs[0], SortLevel(level, fs[1..]))
  }

  lemma {:induction false} SortOrdered(level: nat, fs: seq<File>)
    requires Ordered(level, fs)
    ensures SortLevel(level, fs) == fs
  {
    if fs != [] {
      SortOrdered(level, fs[1..]);
      if |fs| > 1 { assert fs[1] in fs[1..]; }
    }
  }

  lemma HeadA(level: nat, a: seq<File>, b: seq<File>)
    requires a != [] && (b == [] || Before(level, a[0], b[0]))
    ensures Merge(level, a, b) == [a[0]] + Merge(level, a[1..], b)
  {
    if b == [] {
      assert Merge(level, a, b) == a;
      assert Merge(level, a[1..], b) == a[1..];
    }
  }

  lemma HeadB(level: nat, a: seq<File>, b: seq<File>)
    requires b != [] && (a == [] || !Before(level, a[0], b[0]))
    ensures Merge(level, a, b) == [b[0]] + Merge(level, a, b[1..])
  {
    if a == [] {
      assert Merge(level, a, b) == b;
      assert Merge(level, a, b[1..]) == b[1..];
    }
  }

  lemma Shift(out: seq<File>, f: File, rest: seq<File>)
    ensures out + ([f] + rest) == (out + [f]) + rest
  {
  }

  lemma TakeA(level: nat, out: seq<File>, a: seq<File>, b: seq<File>)
    requires a != [] && (b == [] || Before(level, a[0], b[0]))
    ensures out + Merge(level, a, b) == (out + [a[0]]) + Merge(level, a[1..], b)
  {
    HeadA(level, a, b);
    Shift(out, a[0], Merge(level, a[1..], b));
  }

  lemma TakeB(level: nat, out: seq<File>, a: seq<File>, b: seq<File>)
    requires b != [] && (a == [] || !Before(level, a[0], b[0]))
    ensures out + Merge(level, a, b) == (out + [b[0]]) + Merge(level, a, b[1..])
  {
    HeadB(level, a, b);
    Shift(out, b[0], Merge(level, a, b[1..]));
  }

  /** Merges two iterators, as the builder does for the files added and the files of the base version. */
  method MergeIters(level: nat, a: seq<File>, b: seq<File>) returns (out: seq<File>)
    ensures out == Merge(level, a, b)
  {
    out := [];
    var restA, restB := a, b;
    while restA != [] || restB != []
      invariant Merge(level, a, b) == out + Merge(level, restA, restB)
      decreases |restA| + |restB|
    {
      if restA != [] && restB != [] {
        if Before(level, restA[0], restB[0]) {
          TakeA(level, out, restA, restB);
          out, restA := out + [restA[0]], restA[1..];
        } else {
          TakeB(level, out, restA, restB);
          out, restB := out + [restB[0]], restB[1..];
        }
      } else if restA != [] {
        TakeA(level, out, restA, restB);
        out, restA := out + [restA[0]], restA[1..];
      } else {
        TakeB(level, out, restA, restB);
        out, restB := out + [restB[0]], restB[1..];
      }
    }
  }

  // ----- what an edit means -----

  /** The files an edit adds to a level, in the order of the edit. */
  function AddedAt(adds: seq<(nat, File)>, l: nat): seq<File> {
    if adds == [] then []
    else
      var n := |adds| - 1;
      AddedAt(adds[..n], l) + if adds[n].0 == l then [adds[n].1] else []
  }

  function MarkedAt(marks: seq<(nat, nat)>, l: nat): set<nat> {
    set i | 0 <= i < |marks| && marks[i].0 == l :: marks[i].1
  }

  function DeletedAt(deleted: set<(nat, nat)>, l: nat): set<nat> {
    set p | p in deleted && p.0 == l :: p.1
  }

  function BuildLevel(level: nat, added: seq<File>, base: seq<File>, deleted: set<nat>, marks: set<nat>): seq<File> {
    MarkLevel(Remove(Merge(level, SortLevel(level, added), base), deleted), marks)
  }

  function Edited(files: seq<seq<File>>, e: VersionEdit): seq<seq<File>> {
    seq(|files|, l requires 0 <= l < |files| =>
      BuildLevel(l, AddedAt(e.addFiles, l), files[l], DeletedAt(e.deleted, l), MarkedAt(e.marks, l)))
  }

  /** The edit names only levels that exist. */
  predicate InRange(e: VersionEdit, levels: nat) {
    && (forall i :: 0 <= i < |e.addFiles| ==> e.addFiles[i].0 < levels)
    && (forall i :: 0 <= i < |e.marks| ==> e.marks[i].0 < levels)
  }

  method FilterDeleted(level: nat, fs: seq<File>, deleted: set<(nat, nat)>) returns (out: seq<File>)
    ensures out == Remove(fs, DeletedAt(deleted, level))
  {
    out := [];
    assert fs[..0] == [];
    for i := 0 to |fs|
      invariant out == Remove(fs[..i], DeletedAt(deleted, level))
    {
      assert fs[..i + 1] == fs[..i] + [fs[i]];
      RemoveAppend(fs[..i], [fs[i]], DeletedAt(deleted, level));
      assert fs[i].ref in DeletedAt(deleted, level) <==> (level, fs[i].ref) in deleted;
      if (level, fs[i].ref) !in deleted { out := out + [fs[i]]; }
    }
    assert fs[..|fs|] == fs;
  }

  class VersionBuilder {
    var added: seq<seq<File>>
    var deleted: set<(nat, nat)>
    var marks: seq<set<nat>>

    constructor (levels: nat)
      ensures added == seq(levels, _ => []) && deleted == {} && marks == seq(levels, _ => {})
    {
      added := seq(levels, _ => []);
      deleted := {};
      marks := seq(levels, _ => {});
    }

    /** Sorts the edit by level. */
    method ApplyEdit(e: VersionEdit)
      requires |added| == |marks| && InRange(e, |added|)
      requires forall l :: 0 <= l < |added| ==> added[l] == [] && marks[l] == {}
      modifies this
      ensures |added| == |marks| == old(|added|) && deleted == e.deleted
      ensures forall l: nat :: l < |added| ==> added[l] == AddedAt(e.addFiles, l) && marks[l] == MarkedAt(e.marks, l)
    {
      for i := 0 to |e.addFiles|
        invariant |added| == old(|added|) && marks == old(marks)
        invariant forall l: nat :: l < |added| ==> added[l] == AddedAt(e.addFiles[..i], l)
      {
        var level, f := e.addFiles[i].0, e.addFiles[i].1;
        assert e.addFiles[..i + 1][..i] == e.addFiles[..i];
        added := added[level := added[level] + [f]];
      }
      assert e.addFiles[..|e.addFiles|] == e.addFiles;
      for i := 0 to |e.marks|
        invariant |marks| == old(|marks|) && |added| == old(|added|)
        invariant forall l: nat :: l < |added| ==> added[l] == AddedAt(e.addFiles, l)
        invariant forall l: nat :: l < |marks| ==> marks[l] == MarkedAt(e.marks[..i], l)
      {
        var level, ref := e.marks[i].0, e.marks[i].1;
        forall l: nat ensures MarkedAt(e.marks[..i + 1], l) == MarkedAt(e.marks[..i], l) + if l == level then {ref} else {} {
          assert e.marks[..i + 1] == e.marks[..i] + [(level, ref)];
          MarkedSnoc(e.marks[..i], level, ref, l);
        }
        marks := marks[level := marks[level] + {ref}];
      }
      assert e.marks[..|e.marks|] == e.marks;
      deleted := e.deleted;
    }

    /** Merges, filters and marks every level of the base version. */
    method SaveTo(base: seq<seq<File>>) returns (v: seq<seq<File>>)
      requires |base| == |added| == |marks|
      ensures |v| == |base|
      ensures forall l: nat :: l < |base| ==>
        v[l] == BuildLevel(l, added[l], base[l], DeletedAt(deleted, l), marks[l])
    {
      v := base;
      for level := 0 to |added|
        invariant |v| == |base|
        invariant forall l: nat :: l < level ==>
          v[l] == Remove(Merge(l, SortLevel(l, added[l]), base[l]), DeletedAt(deleted, l))
      {
        var merged := MergeIters(level, SortLevel(level, added[level]), base[level]);
        merged := FilterDeleted(level, merged, deleted);
        v := v[level := merged];
      }
      ghost var kept := v;
      for level := 0 to |v|
        invariant |v| == |base|
        invariant forall l: nat :: level <= l < |base| ==> v[l] == kept[l]
        invariant forall l: nat :: l < level ==> v[l] == MarkLevel(kept[l], marks[l])
      {
        v := v[level := MarkLevel(v[level], marks[level])];
      }
    }
  }

  lemma MarkedSnoc(ms: seq<(nat, nat)>, level: nat, ref: nat, l: nat)
    ensures MarkedAt(ms + [(level, ref)], l) == MarkedAt(ms, l) + if l == level then {ref} else {}
  {
    var more := ms + [(level, ref)];
    forall r ensures r in MarkedAt(more, l) <==> r in MarkedAt(ms, l) || (l == level && r == ref) {
      if r in MarkedAt(ms, l) {
        var i :| 0 <= i < |ms| && ms[i].0 == l && ms[i].1 == r;
        assert more[i] == ms[i];
      }
      if l == level && r == ref { assert more[|ms|] == (l, r); }
    }
  }

  // ----- the edits that the program makes -----

  lemma MarkNone(fs: seq<File>)
    ensures MarkLevel(fs, {}) == fs
  {
  }

  /** A level that the edit does not name stays. */
  lemma Untouched(level: nat, base: seq<File>)
    ensures BuildLevel(level, [], base, {}, {}) == base
  {
    RemoveNone(base, {});
    MarkNone(base);
  }

  function FlushEdit(f: File, minXip: nat): VersionEdit {
    VersionEdit(Some(minXip), [(0, f)], {}, [])
  }

  lemma FlushEditedAt(base: seq<File>, f: File, minXip: nat, l: nat)
    ensures
      var e := FlushEdit(f, minXip);
      BuildLevel(l, AddedAt(e.addFiles, l), base, DeletedAt(e.deleted, l), MarkedAt(e.marks, l))
        == if l == 0 then Merge(0, [f], base) else base
  {
    var e := FlushEdit(f, minXip);
    assert e.addFiles[..0] == [];
    assert AddedAt(e.addFiles, l) == AddedAt([], l) + (if l == 0 then [f] else []) == if l == 0 then [f] else [];
    assert DeletedAt(e.deleted, l) == {} && MarkedAt(e.marks, l) == {};
    if l == 0 {
      assert SortLevel(0, [f]) == [f];
      RemoveNone(Merge(0, [f], base), {});
      MarkNone(Merge(0, [f], base));
    } else {
      Untouched(l, base);
    }
  }

  lemma FlushEdited(files: seq<seq<File>>, f: File, minXip: nat)
    requires |files| > 0
    ensures Edited(files, FlushEdit(f, minXip)) == FlushFiles(files, f)
  {
    forall l: nat | l < |files| ensures Edited(files, FlushEdit(f, minXip))[l] == FlushFiles(files, f)[l] {
      FlushEditedAt(files[l], f, minXip, l);
    }
  }

  /** The marks for a list of files of one level. */
  function MarksOf(level: nat, fs: seq<File>): (ms: seq<(nat, nat)>)
    ensures |ms| == |fs| && forall i :: 0 <= i < |fs| ==> ms[i] == (level, fs[i].ref)
  {
    seq(|fs|, i requires 0 <= i < |fs| => (level, fs[i].ref))
  }

  function PickEdit(c: Compaction): VersionEdit {
    VersionEdit(None, [], {}, MarksOf(c.level, c.inputs0) + MarksOf(c.level + 1, c.inputs1))
  }

  lemma MarksOfAt(c: Compaction, l: nat)
    ensures MarkedAt(PickEdit(c).marks, l) ==
      if l == c.level then Refs(c.inputs0) else if l == c.level + 1 then Refs(c.inputs1) else {}
  {
    var ms, a, b := PickEdit(c).marks, c.inputs0, c.inputs1;
    var want := if l == c.level then Refs(a) else if l == c.level + 1 then Refs(b) else {};
    forall r ensures r in MarkedAt(ms, l) <==> r in want {
      if r in MarkedAt(ms, l) {
        var i :| 0 <= i < |ms| && ms[i].0 == l && ms[i].1 == r;
        if i < |a| { assert a[i] in a; } else { assert b[i - |a|] in b; }
      }
      if r in want && l == c.level {
        var f :| f in a && f.ref == r;
        var i :| 0 <= i < |a| && a[i] == f;
        assert ms[i] == (l, r);
      }
      if r in want && l == c.level + 1 {
        var f :| f in b && f.ref == r;
        var i :| 0 <= i < |b| && b[i] == f;
        assert ms[|a| + i] == (l, r);
      }
    }
  }

  lemma PickEdited(files: seq<seq<File>>, c: Compaction)
    requires c.level + 1 < |files|
    ensures Edited(files, PickEdit(c)) == MarkFiles(files, c)
  {
    var e := PickEdit(c);
    forall l: nat | l < |files| ensures Edited(files, e)[l] == MarkFiles(files, c)[l] {
      MarksOfAt(c, l);
      assert DeletedAt({}, l) == {};
      RemoveNone(files[l], {});
      MarkNone(files[l]);
    }
  }

  /** Adding files to one level. */
  function AddsOf(level: nat, fs: seq<File>): (adds: seq<(nat, File)>)
    ensures |adds| == |fs| && forall i :: 0 <= i < |fs| ==> adds[i] == (level, fs[i])
  {
    seq(|fs|, i requires 0 <= i < |fs| => (level, fs[i]))
  }

  lemma {:induction false} AddsOfAt(level: nat, fs: seq<File>, l: nat)
    ensures AddedAt(AddsOf(level, fs), l) == if l == level then fs else []
  {
    if fs != [] {
      var n := |fs| - 1;
      assert AddsOf(level, fs)[..n] == AddsOf(level, fs[..n]);
      AddsOfAt(level, fs[..n], l);
      assert fs == fs[..n] + [fs[n]];
    }
  }

  function Names(level: nat, refs: set<nat>): set<(nat, nat)> {
    set r | r in refs :: (level, r)
  }

  function FinalEdit(c: Compaction, outs: seq<File>): VersionEdit {
    VersionEdit(None, AddsOf(c.level + 1, outs),
                Names(c.level, Refs(c.inputs0)) + Names(c.level + 1, Refs(c.inputs1)), [])
  }

  lemma NamesAt(c: Compaction, outs: seq<File>, l: nat)
    ensures DeletedAt(FinalEdit(c, outs).deleted, l) ==
      if l == c.level then Refs(c.inputs0) else if l == c.level + 1 then Refs(c.inputs1) else {}
  {
    var d := FinalEdit(c, outs).deleted;
    var want := if l == c.level then Refs(c.inputs0) else if l == c.level + 1 then Refs(c.inputs1) else {};
    forall r: nat ensures r in DeletedAt(d, l) <==> r in want {
      assert r in want <==> (l, r) in d;
    }
  }

  lemma FinalEditedAt(base: seq<File>, c: Compaction, outs: seq<File>, l: nat)
    requires Ordered(c.level + 1, outs)
    ensures
      var e := FinalEdit(c, outs);
      BuildLevel(l, AddedAt(e.addFiles, l), base, DeletedAt(e.deleted, l), MarkedAt(e.marks, l))
        == if l == c.level then Remove(base, Refs(c.inputs0))
           else if l == c.level + 1 then Remove(Merge(l, outs, base), Refs(c.inputs1)) else base
  {
    NamesAt(c, outs, l);
    AddsOfAt(c.level + 1, outs, l);
    assert MarkedAt([], l) == {};
    if l == c.level {
      MarkNone(Remove(base, Refs(c.inputs0)));
    } else if l == c.level + 1 {
      SortOrdered(l, outs);
      MarkNone(Remove(Merge(l, outs, base), Refs(c.inputs1)));
    } else {
      Untouched(l, base);
    }
  }

  lemma FinalEdited(files: seq<seq<File>>, c: Compaction, outs: seq<File>)
    requires c.level + 1 < |files| && Ordered(c.level + 1, outs)
    ensures Edited(files, FinalEdit(c, outs)) == FinalFiles(files, c, outs)
  {
    forall l: nat | l < |files| ensures Edited(files, FinalEdit(c, outs))[l] == FinalFiles(files, c, outs)[l] {
      FinalEditedAt(files[l], c, outs, l);
    }
  }
}

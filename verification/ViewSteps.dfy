/** What each event does to one key's view, and why the view keeps its invariant. */
module ViewSteps {
  import opened Options
  import opened Chain
  import opened Protocol
  import opened Invariant

  // ----- where the first old node goes -----

  lemma FirstOldIs(ch: Versions, m: nat, i: nat)
    requires i <= |ch| && (i < |ch| ==> Old(ch[i], m)) && forall j :: 0 <= j < i ==> !Old(ch[j], m)
    ensures FirstOld(ch, 0, m) == i
  {
  }

  lemma FirstOldPush(ch: Versions, s: nat, rec: Option<Value>, m: nat)
    ensures FirstOld(Push(ch, s, rec), 0, m) == FirstOld(ch, 0, m) + 1
  {
    FirstOldIs(Push(ch, s, rec), m, FirstOld(ch, 0, m) + 1);
  }

  lemma FirstOldStamp(ch: Versions, s: nat, c: nat, m: nat)
    requires m <= c
    ensures FirstOld(StampAll(ch, s, c), 0, m) == FirstOld(ch, 0, m)
  {
    FirstOldIs(StampAll(ch, s, c), m, FirstOld(ch, 0, m));
  }

  lemma FirstOldUnwind(ch: Versions, s: nat, m: nat)
    ensures OwnRun(ch, 0, s) <= FirstOld(ch, 0, m)
    ensures FirstOld(Unwind(ch, s), 0, m) == FirstOld(ch, 0, m) - OwnRun(ch, 0, s)
  {
    FirstOldIs(Unwind(ch, s), m, FirstOld(ch, 0, m) - OwnRun(ch, 0, s));
  }

  lemma FirstOldMark(ch: Versions, m: nat, m': nat)
    requires Collectable(ch, m)
    ensures FirstOld(Mark(ch, m), 0, m') == FirstOld(ch, 0, m')
  {
    FirstOldIs(Mark(ch, m), m', FirstOld(ch, 0, m'));
  }

  lemma FirstOldCut(ch: Versions, j: nat, m: nat)
    requires j <= |ch|
    ensures FirstOld(ch[..j], 0, m) == if FirstOld(ch, 0, m) < j then FirstOld(ch, 0, m) else j
  {
    FirstOldIs(ch[..j], m, if FirstOld(ch, 0, m) < j then FirstOld(ch, 0, m) else j);
  }

  // ----- transactions -----

  /** What the flush bookkeeping of the whole world says about this view. */
  ghost predicate FlushSane(v: View) {
    && (forall m :: m in v.sealed + v.visits.Keys ==> 0 < m < v.counter && m < U32)
    && v.published <= v.sealed
    && v.lastPub < v.counter
    && (forall m :: m in v.published ==> m <= v.lastPub)
    && (forall m :: m in v.visits ==> v.lastPub <= m)
    && (forall m :: m in v.visits && m in v.sealed ==> v.visits[m].entry.None?)
  }

  /** No flush in use started after `s`. */
  ghost predicate FlushesBelow(v: View, s: nat) {
    && (forall m :: m in v.sealed + v.visits.Keys ==> m <= s)
    && v.lastPub <= s
  }

  function StartView(v: View): View {
    v.(owners := v.owners[v.counter := Owner(true, false, None)], counter := v.counter + 1)
  }

  lemma StartKeeps(v: View)
    requires KeyInv(v) && forall s :: s in v.owners ==> s < v.counter
    ensures KeyInv(StartView(v))
  {
  }

  function WriteView(v: View, s: nat, rec: Option<Value>): View {
    v.(ch := Push(v.ch, s, rec), owners := v.owners[s := Owner(true, true, Some(rec))])
  }

  /** A writer that meets no conflict starts no earlier than any committed version of the key. */
  lemma WriterIsCurrent(v: View, s: nat)
    requires KeyInv(v) && s in v.owners && v.owners[s].active && FlushesBelow(v, s) && !Conflict(v.ch, s)
    ensures forall c :: c in v.h ==> c <= s
  {
    forall c | c in v.h ensures c <= s {
      if !Gone(v.ch, v.top, c) {
        assert InChain(v.ch, c);
        var i :| 0 <= i < |v.ch| && v.ch[i].stamp == Stamp.Commit(c);
        assert OwnedBy(v.owners, v.h, v.ch[0]);
      }
    }
  }

  /** `ch'` is `ch` moved by `d` places as far as collection can tell: only unclaimed,
      uncommitted nodes come, go or change their stamp. */
  ghost predicate Moved(ch: Versions, ch': Versions, d: int, flushes: set<nat>) {
    && |ch'| == |ch| + d
    && (forall i :: 0 <= i < |ch| && !(0 <= i + d < |ch'|) ==> ch[i].collected == 0)
    && (forall i :: 0 <= i < |ch'| && !(0 <= i - d < |ch|) ==> ch'[i].collected == 0)
    && (forall i :: 0 <= i < |ch'| && 0 <= i - d < |ch| ==>
          && ch'[i].collected == ch[i - d].collected && ch'[i].record == ch[i - d].record
          && (ch[i - d].stamp.Commit? ==> ch'[i].stamp == ch[i - d].stamp)
          && (ch[i - d].stamp.Uncommitted? ==> ch[i - d].collected == 0))
    && (forall m :: m in flushes ==> FirstOld(ch', 0, m) == FirstOld(ch, 0, m) + d)
  }

  lemma MovedMarked(ch: Versions, ch': Versions, d: int, flushes: set<nat>, m: nat, e: Entry)
    requires Moved(ch, ch', d, flushes) && EntryMarked(ch, m, e) && m != 0
    ensures EntryMarked(ch', m, e)
  {
    var i :| 0 <= i < |ch| && ch[i].collected == m && Holds(ch[i], e);
    assert ch'[i + d].collected == ch[i + d - d].collected;
  }

  lemma MovedCollect(v: View, ch': Versions, d: int)
    requires CollectInv(v) && Moved(v.ch, ch', d, v.sealed + v.visits.Keys)
    requires FlushSane(v)
    ensures CollectInv(v.(ch := ch'))
  {
    var fs := v.sealed + v.visits.Keys;
    forall m | m in fs && Claimed(v.ch, m) ensures Claimed(ch', m) {
      var i := FirstOld(v.ch, 0, m);
      if i < |v.ch| { assert ch'[i + d].collected == v.ch[i + d - d].collected; }
    }
    forall m, e | m in fs && MarkedIn(v.ch, m, e) ensures MarkedIn(ch', m, e) {}
    forall m | m in v.visits ensures VisitOk(ch', v.h, m, v.visits[m], m in v.sealed, v.top) {
      assert VisitOk(v.ch, v.h, m, v.visits[m], m in v.sealed, v.top);
      if v.visits[m].entry.Some? { MovedMarked(v.ch, ch', d, fs, m, v.visits[m].entry.value); }
    }
    forall i | 0 <= i < |ch'| ensures MarkOk(ch', i, fs) {
      if 0 <= i - d < |v.ch| { assert MarkOk(v.ch, i - d, fs); }
    }
  }

  /** Uncommitted nodes are unclaimed. */
  lemma UncommittedUnclaimed(v: View, i: nat)
    requires MarksOk(v.ch, v.sealed + v.visits.Keys) && i < |v.ch| && v.ch[i].stamp.Uncommitted?
    ensures v.ch[i].collected == 0
  {
    assert MarkOk(v.ch, i, v.sealed + v.visits.Keys);
  }

  lemma PushChain(v: View, s: nat, rec: Option<Value>)
    requires ChainInv(v) && s in v.owners && v.owners[s].active && !Conflict(v.ch, s)
    requires forall c :: c in v.h ==> c <= s
    ensures ChainInv(WriteView(v, s, rec))
  {
    var v' := WriteView(v, s, rec);
    assert forall i :: 0 < i < |v'.ch| ==> v'.ch[i] == v.ch[i - 1];
    forall c | InChain(v.ch, c) ensures InChain(v'.ch, c) {
      var i :| 0 <= i < |v.ch| && v.ch[i].stamp == Stamp.Commit(c);
      assert v'.ch[i + 1] == v.ch[i];
    }
    forall c | Gone(v.ch, v.top, c) ensures Gone(v'.ch, v.top, c) {}
    forall i | 0 <= i < |v'.ch| ensures OwnedBy(v'.owners, v.h, v'.ch[i]) {
      if i > 0 { assert OwnedBy(v.owners, v.h, v.ch[i - 1]); }
    }
    forall s' | s' in v'.owners ensures WriteAtHead(v'.owners, v'.ch, s') {
      if s' != s { assert WriteAtHead(v.owners, v.ch, s'); }
    }
  }

  lemma PushMoved(v: View, s: nat, rec: Option<Value>)
    requires MarksOk(v.ch, v.sealed + v.visits.Keys)
    ensures Moved(v.ch, Push(v.ch, s, rec), 1, v.sealed + v.visits.Keys)
  {
    forall m ensures FirstOld(Push(v.ch, s, rec), 0, m) == FirstOld(v.ch, 0, m) + 1 { FirstOldPush(v.ch, s, rec, m); }
    forall i | 0 <= i < |v.ch| && v.ch[i].stamp.Uncommitted? ensures v.ch[i].collected == 0 { UncommittedUnclaimed(v, i); }
  }

  lemma WriteKeeps(v: View, s: nat, rec: Option<Value>)
    requires KeyInv(v) && s in v.owners && v.owners[s].active && FlushesBelow(v, s) && !Conflict(v.ch, s)
    requires FlushSane(v)
    ensures KeyInv(WriteView(v, s, rec))
  {
    WriterIsCurrent(v, s);
    PushChain(v, s, rec);
    PushMoved(v, s, rec);
    MovedCollect(v, Push(v.ch, s, rec), 1);
  }

  function CommitView(v: View, s: nat): View
    requires s in v.owners
  {
    var w := v.owners[s].write;
    var v1 := v.(owners := v.owners - {s}, counter := v.counter + 1);
    if w.None? then v1
    else v1.(ch := StampAll(v.ch, s, v.counter), h := v.h[v.counter := Version(w.value, s)])
  }

  /** All uncommitted nodes carry the head's stamp. */
  lemma UncommittedRun(ch: Versions, i: nat)
    requires Shape(ch) && i < |ch| && ch[i].stamp.Uncommitted?
    ensures ch[0].stamp == ch[i].stamp
  {
  }

  /** The chain of a key that `s` is about to commit: its run on top, older commits below. */
  ghost predicate Committing(ch: Versions, s: nat, c: nat) {
    && Shape(ch) && ch != [] && ch[0].stamp == Uncommitted(s)
    && forall i :: 0 <= i < |ch| ==> if ch[i].stamp.Uncommitted? then ch[i].stamp.ts == s else ch[i].stamp.ts < c
  }

  lemma StampCommitted(ch: Versions, h: map<nat, Version>, s: nat, c: nat)
    requires Committing(ch, s, c) && CommittedOk(ch, h) && c !in h
    ensures CommittedOk(StampAll(ch, s, c), h[c := Version(ch[0].record, s)])
  {
    var ch', h' := StampAll(ch, s, c), h[c := Version(ch[0].record, s)];
    forall i | 0 <= i < |ch'| ensures ch'[i].stamp.ts in h' && (TopOfGroup(ch', i) ==> ch'[i].record == h'[ch'[i].stamp.ts].record) {
      if ch[i].stamp.Commit? {
        assert TopOfGroup(ch', i) ==> TopOfGroup(ch, i);
      } else if i > 0 {
        assert ch[i - 1].stamp == ch[i].stamp;
      }
    }
  }

  lemma StampCovered(ch: Versions, h: map<nat, Version>, s: nat, c: nat, top: Option<nat>)
    requires Committing(ch, s, c) && Covered(ch, h, top) && forall c' :: c' in h ==> c' < c
    ensures Covered(StampAll(ch, s, c), h[c := Version(ch[0].record, s)], top)
  {
    var ch' := StampAll(ch, s, c);
    assert ch'[0].stamp == Stamp.Commit(c);
    forall c' | c' in h ensures InChain(ch', c') || Gone(ch', top, c') {
      if InChain(ch, c') {
        var i :| 0 <= i < |ch| && ch[i].stamp == Stamp.Commit(c');
        assert ch'[i].stamp == Stamp.Commit(c');
      } else {
        assert Gone(ch, top, c');
      }
    }
  }

  lemma StampShape(ch: Versions, s: nat, c: nat)
    requires Committing(ch, s, c)
    ensures Shape(StampAll(ch, s, c)) && forall i :: 0 <= i < |ch| ==> StampAll(ch, s, c)[i].stamp.Commit?
  {
  }

  lemma HistExtends(h: map<nat, Version>, c: nat, n: Version)
    requires HistOk(h, c) && n.writer < c && forall c' :: c' in h ==> c' <= n.writer
    ensures HistOk(h[c := n], c + 1)
  {
  }

  lemma CommitChain(v: View, s: nat)
    requires ChainInv(v) && s in v.owners && v.owners[s].active && v.owners[s].write.Some? && s < v.counter
    ensures ChainInv(CommitView(v, s))
  {
    var v' := CommitView(v, s);
    assert WriteAtHead(v.owners, v.ch, s);
    assert OwnedBy(v.owners, v.h, v.ch[0]);
    forall i | 0 <= i < |v.ch| && v.ch[i].stamp.Uncommitted? ensures v.ch[i].stamp.ts == s { UncommittedRun(v.ch, i); }
    assert Committing(v.ch, s, v.counter) by { assert CommittedOk(v.ch, v.h); }
    StampShape(v.ch, s, v.counter);
    HistExtends(v.h, v.counter, Version(v.owners[s].write.value, s));
    StampCommitted(v.ch, v.h, s, v.counter);
    StampCovered(v.ch, v.h, s, v.counter, v.top);
    forall s' | s' in v'.owners ensures WriteAtHead(v'.owners, v'.ch, s') { assert WriteAtHead(v.owners, v.ch, s'); }
  }

  /** A transaction that wrote nothing here leaves the chain alone. */
  lemma ReadOnlyCommit(v: View, s: nat)
    requires ChainInv(v) && s in v.owners && v.owners[s].active && v.owners[s].write.None?
    ensures ChainInv(CommitView(v, s))
  {
    var v' := CommitView(v, s);
    forall i | 0 <= i < |v.ch| ensures OwnedBy(v'.owners, v.h, v.ch[i]) { assert OwnedBy(v.owners, v.h, v.ch[i]); }
    forall s' | s' in v'.owners ensures WriteAtHead(v'.owners, v.ch, s') { assert WriteAtHead(v.owners, v.ch, s'); }
  }

  lemma StampMoved(v: View, s: nat)
    requires MarksOk(v.ch, v.sealed + v.visits.Keys) && FlushSane(v)
    ensures Moved(v.ch, StampAll(v.ch, s, v.counter), 0, v.sealed + v.visits.Keys)
  {
    forall m | m in v.sealed + v.visits.Keys ensures FirstOld(StampAll(v.ch, s, v.counter), 0, m) == FirstOld(v.ch, 0, m) {
      FirstOldStamp(v.ch, s, v.counter, m);
    }
    forall i | 0 <= i < |v.ch| && v.ch[i].stamp.Uncommitted? ensures v.ch[i].collected == 0 { UncommittedUnclaimed(v, i); }
  }

  /** A new version disturbs neither collection nor tables. */
  lemma HistoryGrows(v: View, c: nat, n: Version)
    requires CollectInv(v) && TableInv(v) && c !in v.h
    ensures CollectInv(v.(h := v.h[c := n])) && TableInv(v.(h := v.h[c := n]))
  {
    var h := v.h[c := n];
    forall m | m in v.visits ensures VisitOk(v.ch, h, m, v.visits[m], m in v.sealed, v.top) {
      assert VisitOk(v.ch, v.h, m, v.visits[m], m in v.sealed, v.top);
    }
    forall m | m in v.imm ensures ImmEntryOk(h, v.imm[m], m, v.sst, v.top) {
      assert ImmEntryOk(v.h, v.imm[m], m, v.sst, v.top);
    }
  }

  lemma CommitKeeps(v: View, s: nat)
    requires KeyInv(v) && s in v.owners && v.owners[s].active && s < v.counter && FlushSane(v)
    ensures KeyInv(CommitView(v, s))
  {
    if v.owners[s].write.Some? {
      CommitChain(v, s);
      StampMoved(v, s);
      var ch := StampAll(v.ch, s, v.counter);
      MovedCollect(v, ch, 0);
      HistoryGrows(v.(ch := ch), v.counter, Version(v.owners[s].write.value, s));
    } else {
      ReadOnlyCommit(v, s);
    }
  }

  function AbortView(v: View, s: nat): View
    requires s in v.owners
  {
    v.(owners := v.owners[s := v.owners[s].(active := false)])
  }

  lemma AbortKeeps(v: View, s: nat)
    requires KeyInv(v) && s in v.owners
    ensures KeyInv(AbortView(v, s))
  {
    var v' := AbortView(v, s);
    forall i | 0 <= i < |v.ch| ensures OwnedBy(v'.owners, v.h, v.ch[i]) { assert OwnedBy(v.owners, v.h, v.ch[i]); }
    forall s' | s' in v'.owners ensures WriteAtHead(v'.owners, v.ch, s') { assert WriteAtHead(v.owners, v.ch, s'); }
  }

  function RollbackView(v: View, s: nat): View
    requires s in v.owners
  {
    v.(ch := Unwind(v.ch, s), owners := v.owners[s := v.owners[s].(redo := false)])
  }

  lemma UnwindCovered(ch: Versions, h: map<nat, Version>, s: nat, top: Option<nat>)
    requires Covered(ch, h, top)
    ensures Covered(Unwind(ch, s), h, top)
  {
    var ch', r := Unwind(ch, s), OwnRun(ch, 0, s);
    forall c | c in h ensures InChain(ch', c) || Gone(ch', top, c) {
      if InChain(ch, c) {
        var i :| 0 <= i < |ch| && ch[i].stamp == Stamp.Commit(c);
        assert ch'[i - r].stamp == Stamp.Commit(c);
      } else {
        assert Gone(ch, top, c);
      }
    }
  }

  lemma UnwindCommitted(ch: Versions, h: map<nat, Version>, s: nat)
    requires CommittedOk(ch, h)
    ensures CommittedOk(Unwind(ch, s), h)
  {
    var ch', r := Unwind(ch, s), OwnRun(ch, 0, s);
    forall i | 0 <= i < |ch'| && ch'[i].stamp.Commit?
      ensures ch'[i].stamp.ts in h && (TopOfGroup(ch', i) ==> ch'[i].record == h[ch'[i].stamp.ts].record)
    {
      assert ch'[i] == ch[i + r];
      assert TopOfGroup(ch', i) ==> TopOfGroup(ch, i + r);
    }
  }

  lemma UnwindOwned(v: View, s: nat)
    requires ChainInv(v) && s in v.owners && !v.owners[s].active
    ensures Owned(Unwind(v.ch, s), RollbackView(v, s).owners, v.h)
  {
    var v', r := RollbackView(v, s), OwnRun(v.ch, 0, s);
    forall i | 0 <= i < |v'.ch| ensures OwnedBy(v'.owners, v.h, v'.ch[i]) {
      assert v'.ch[i] == v.ch[i + r];
      assert OwnedBy(v.owners, v.h, v.ch[i + r]);
      if v'.ch[i].stamp.Uncommitted? { UncommittedRun(v.ch, i + r); UncommittedRun(v.ch, r); }
    }
    forall s' | s' in v'.owners ensures WriteAtHead(v'.owners, v'.ch, s') { assert WriteAtHead(v.owners, v.ch, s'); }
  }

  lemma UnwindChain(v: View, s: nat)
    requires ChainInv(v) && s in v.owners && !v.owners[s].active
    ensures ChainInv(RollbackView(v, s))
  {
    UnwindOwned(v, s);
    UnwindCommitted(v.ch, v.h, s);
    UnwindCovered(v.ch, v.h, s, v.top);
  }

  lemma UnwindMoved(v: View, s: nat)
    requires MarksOk(v.ch, v.sealed + v.visits.Keys)
    ensures Moved(v.ch, Unwind(v.ch, s), 0 - OwnRun(v.ch, 0, s) as int, v.sealed + v.visits.Keys)
  {
    forall m ensures FirstOld(Unwind(v.ch, s), 0, m) == FirstOld(v.ch, 0, m) - OwnRun(v.ch, 0, s) { FirstOldUnwind(v.ch, s, m); }
    forall i | 0 <= i < |v.ch| && v.ch[i].stamp.Uncommitted? ensures v.ch[i].collected == 0 { UncommittedUnclaimed(v, i); }
  }

  lemma RollbackKeeps(v: View, s: nat)
    requires KeyInv(v) && s in v.owners && !v.owners[s].active && FlushSane(v)
    ensures KeyInv(RollbackView(v, s))
  {
    hide ChainInv, MarksOk, VisitsOk, SealedOk, PublishedOk, ImmOk, SstOk, TopOk, Moved, Unwind;
    assert MarksOk(v.ch, v.sealed + v.visits.Keys);
    UnwindChain(v, s);
    UnwindMoved(v, s);
    MovedCollect(v, Unwind(v.ch, s), 0 - OwnRun(v.ch, 0, s) as int);
  }

  // ----- flushes -----

  function RegisterView(v: View, m: nat, inMem: bool): View {
    v.(visits := v.visits[m := Visit(inMem, None)])
  }

  lemma RegisterKeeps(v: View, m: nat, inMem: bool)
    requires KeyInv(v) && 0 < m && m !in v.visits && (!inMem ==> v.ch == [])
    ensures KeyInv(RegisterView(v, m, inMem))
  {
    var v' := RegisterView(v, m, inMem);
    var fs, fs' := v.sealed + v.visits.Keys, v'.sealed + v'.visits.Keys;
    forall i | 0 <= i < |v.ch| ensures MarkOk(v.ch, i, fs') && (m !in fs ==> v.ch[i].collected != m) {
      assert MarkOk(v.ch, i, fs);
    }
    assert VisitOk(v.ch, v.h, m, Visit(inMem, None), m in v.sealed, v.top);
    forall m' | m' in v'.visits ensures VisitOk(v.ch, v.h, m', v'.visits[m'], m' in v.sealed, v.top) {
      if m' != m { assert VisitOk(v.ch, v.h, m', v.visits[m'], m' in v.sealed, v.top); }
    }
  }

  function SnapshotView(v: View, m: nat): View
    requires m in v.visits
  {
    if Collectable(v.ch, m) then
      var n := v.ch[FirstOld(v.ch, 0, m)];
      v.(ch := Mark(v.ch, m), visits := v.visits[m := Visit(false, Some(Entry(n.stamp.ts, n.record)))])
    else v.(visits := v.visits[m := v.visits[m].(todo := false)])
  }

  lemma MarkCovered(ch: Versions, h: map<nat, Version>, top: Option<nat>, m: nat)
    requires Covered(ch, h, top) && Collectable(ch, m)
    ensures Covered(Mark(ch, m), h, top)
  {
    forall c | c in h ensures InChain(Mark(ch, m), c) || Gone(Mark(ch, m), top, c) {
      if InChain(ch, c) {
        var i :| 0 <= i < |ch| && ch[i].stamp == Stamp.Commit(c);
        assert Mark(ch, m)[i].stamp == Stamp.Commit(c);
      } else {
        assert Gone(ch, top, c);
      }
    }
  }

  lemma MarkOwned(ch: Versions, owners: map<nat, Owner>, h: map<nat, Version>, m: nat)
    requires Owned(ch, owners, h) && Collectable(ch, m)
    ensures Owned(Mark(ch, m), owners, h)
  {
    forall i | 0 <= i < |ch| ensures OwnedBy(owners, h, Mark(ch, m)[i]) { assert OwnedBy(owners, h, ch[i]); }
    forall s | s in owners ensures WriteAtHead(owners, Mark(ch, m), s) { assert WriteAtHead(owners, ch, s); }
  }

  lemma MarkCommitted(ch: Versions, h: map<nat, Version>, m: nat)
    requires CommittedOk(ch, h) && Collectable(ch, m)
    ensures CommittedOk(Mark(ch, m), h)
  {
    forall i | 0 <= i < |ch| ensures TopOfGroup(Mark(ch, m), i) <==> TopOfGroup(ch, i) {}
  }

  lemma MarkChain(v: View, m: nat)
    requires ChainInv(v) && Collectable(v.ch, m)
    ensures ChainInv(v.(ch := Mark(v.ch, m)))
  {
    MarkCovered(v.ch, v.h, v.top, m);
    MarkOwned(v.ch, v.owners, v.h, m);
    MarkCommitted(v.ch, v.h, m);
  }

  /** What a snapshot claims is the newest version below the flush, and none published is newer. */
  lemma ClaimIsNewest(ch: Versions, h: map<nat, Version>, top: Option<nat>, m: nat)
    requires Shape(ch) && CommittedOk(ch, h) && Covered(ch, h, top) && Collectable(ch, m)
    requires top.Some? ==> top.value in h && top.value < m
    ensures
      var n := ch[FirstOld(ch, 0, m)];
      EntryOk(h, Entry(n.stamp.ts, n.record), m) && (top.Some? ==> top.value <= n.stamp.ts)
  {
    assert TopOfGroup(ch, FirstOld(ch, 0, m));
    if top.Some? && InChain(ch, top.value) {
      var j :| 0 <= j < |ch| && ch[j].stamp == Stamp.Commit(top.value);
      assert Old(ch[j], m);
    }
  }

  lemma MarkedOther(ch: Versions, m: nat, m': nat, e: Entry)
    requires Collectable(ch, m) && m' != 0 && EntryMarked(ch, m', e)
    ensures EntryMarked(Mark(ch, m), m', e)
  {
    var i :| 0 <= i < |ch| && ch[i].collected == m' && Holds(ch[i], e);
    assert Mark(ch, m)[i] == ch[i];
  }

  lemma MarkMarks(v: View, m: nat)
    requires MarksOk(v.ch, v.sealed + v.visits.Keys) && SealedOk(v.ch, v.sealed)
    requires PublishedOk(v.ch, v.published, v.imm) && FlushSane(v) && m in v.visits && Collectable(v.ch, m)
    ensures MarksOk(Mark(v.ch, m), v.sealed + v.visits.Keys) && SealedOk(Mark(v.ch, m), v.sealed)
    ensures PublishedOk(Mark(v.ch, m), v.published, v.imm)
  {
    var ch, ch', fs := v.ch, Mark(v.ch, m), v.sealed + v.visits.Keys;
    assert m !in v.sealed;
    forall m' ensures FirstOld(ch', 0, m') == FirstOld(ch, 0, m') { FirstOldMark(ch, m, m'); }
    forall i | 0 <= i < |ch| ensures MarkOk(ch', i, fs) { assert MarkOk(ch, i, fs); }
    forall m' | m' in v.sealed ensures Claimed(ch', m') { assert Claimed(ch, m'); }
    forall m' | m' in v.published ensures MarkedIn(ch', m', if m' in v.imm then Some(v.imm[m']) else None) {
      assert MarkedIn(ch, m', if m' in v.imm then Some(v.imm[m']) else None);
    }
  }

  /** Visits of the other flushes survive the claim. */
  lemma MarkVisitOther(ch: Versions, h: map<nat, Version>, m: nat, m': nat, visit: Visit, resumed: bool, top: Option<nat>)
    requires VisitOk(ch, h, m', visit, resumed, top) && Collectable(ch, m) && 0 < m' != m < U32
    ensures VisitOk(Mark(ch, m), h, m', visit, resumed, top)
  {
    FirstOldMark(ch, m, m');
    if visit.entry.Some? { MarkedOther(ch, m, m', visit.entry.value); }
  }

  lemma MarkVisitOwn(ch: Versions, h: map<nat, Version>, m: nat, fs: set<nat>, resumed: bool, top: Option<nat>)
    requires Collectable(ch, m) && 0 < m < U32 && MarksOk(ch, fs)
    requires EntryOk(h, Entry(ch[FirstOld(ch, 0, m)].stamp.ts, ch[FirstOld(ch, 0, m)].record), m)
    requires top.Some? ==> top.value <= ch[FirstOld(ch, 0, m)].stamp.ts
    ensures
      var n := ch[FirstOld(ch, 0, m)];
      VisitOk(Mark(ch, m), h, m, Visit(false, Some(Entry(n.stamp.ts, n.record))), resumed, top)
  {
    var ch', i := Mark(ch, m), FirstOld(ch, 0, m);
    FirstOldMark(ch, m, m);
    assert ch'[i].collected == m && Holds(ch'[i], Entry(ch[i].stamp.ts, ch[i].record));
    forall j | 0 <= j < |ch| && j != i ensures ch'[j].collected != m { assert MarkOk(ch, j, fs); }
  }

  lemma MarkVisits(v: View, m: nat)
    requires KeyInv(v) && FlushSane(v) && m in v.visits && Collectable(v.ch, m)
    ensures VisitsOk(Mark(v.ch, m), v.h, SnapshotView(v, m).visits, v.sealed, v.top)
  {
    assert v.lastPub <= m;
    ClaimIsNewest(v.ch, v.h, v.top, m);
    MarkVisitOwn(v.ch, v.h, m, v.sealed + v.visits.Keys, m in v.sealed, v.top);
    forall m' | m' in v.visits && m' != m
      ensures VisitOk(Mark(v.ch, m), v.h, m', v.visits[m'], m' in v.sealed, v.top)
    {
      MarkVisitOther(v.ch, v.h, m, m', v.visits[m'], m' in v.sealed, v.top);
    }
  }

  lemma SkipVisits(v: View, m: nat)
    requires CollectInv(v) && m in v.visits && !Collectable(v.ch, m)
    ensures CollectInv(SnapshotView(v, m))
  {
    var v' := SnapshotView(v, m);
    assert v'.visits.Keys == v.visits.Keys;
    forall m' | m' in v.visits ensures VisitOk(v.ch, v.h, m', v'.visits[m'], m' in v.sealed, v.top) {
      assert VisitOk(v.ch, v.h, m', v.visits[m'], m' in v.sealed, v.top);
    }
  }

  lemma SnapshotKeeps(v: View, m: nat)
    requires KeyInv(v) && FlushSane(v) && m in v.visits
    ensures KeyInv(SnapshotView(v, m))
  {
    if Collectable(v.ch, m) {
      MarkChain(v, m);
      MarkMarks(v, m);
      MarkVisits(v, m);
      assert SnapshotView(v, m).visits.Keys == v.visits.Keys;
    } else {
      SkipVisits(v, m);
    }
  }

  function CancelView(v: View, m: nat): View {
    v.(visits := v.visits - {m}, sealed := v.sealed + {m})
  }

  lemma CancelKeeps(v: View, m: nat)
    requires KeyInv(v) && m in v.visits && !v.visits[m].todo
    ensures KeyInv(CancelView(v, m))
  {
    var v' := CancelView(v, m);
    assert v'.sealed + v'.visits.Keys == v.sealed + v.visits.Keys;
    assert VisitOk(v.ch, v.h, m, v.visits[m], m in v.sealed, v.top);
    forall m' | m' in v'.visits ensures VisitOk(v.ch, v.h, m', v'.visits[m'], m' in v'.sealed, v.top) {
      assert VisitOk(v.ch, v.h, m', v.visits[m'], m' in v.sealed, v.top);
    }
  }

  function PublishView(v: View, m: nat): View
    requires m in v.visits
  {
    var e := v.visits[m].entry;
    v.(visits := v.visits - {m}, sealed := v.sealed + {m}, published := v.published + {m}, lastPub := m,
       imm := if e.Some? then v.imm[m := e.value] else v.imm,
       top := if e.Some? then Some(e.value.ver) else v.top)
  }

  /** Flushes that collect one key out of step still collect it in version order. */
  lemma ClaimsOrdered(ch: Versions, fs: set<nat>, m: nat, m': nat, e: Entry, e': Entry)
    requires Shape(ch) && MarksOk(ch, fs) && 0 < m <= m'
    requires EntryMarked(ch, m, e) && EntryMarked(ch, m', e')
    ensures e.ver <= e'.ver
  {
    var i :| 0 <= i < |ch| && ch[i].collected == m && Holds(ch[i], e);
    var j :| 0 <= j < |ch| && ch[j].collected == m' && Holds(ch[j], e');
    assert MarkOk(ch, i, fs) && MarkOk(ch, j, fs);
    assert Old(ch[i], m');
  }

  lemma PublishVisits(v: View, m: nat)
    requires KeyInv(v) && FlushSane(v) && IsMin(m, v.visits.Keys) && !v.visits[m].todo && m !in v.sealed
    ensures CollectInv(PublishView(v, m))
  {
    var v' := PublishView(v, m);
    var e := v.visits[m].entry;
    assert v'.sealed + v'.visits.Keys == v.sealed + v.visits.Keys;
    assert VisitOk(v.ch, v.h, m, v.visits[m], false, v.top);
    forall m' | m' in v'.visits ensures VisitOk(v.ch, v.h, m', v'.visits[m'], m' in v'.sealed, v'.top) {
      assert VisitOk(v.ch, v.h, m', v.visits[m'], m' in v.sealed, v.top);
      if e.Some? && v.visits[m'].entry.Some? {
        ClaimsOrdered(v.ch, v.sealed + v.visits.Keys, m, m', e.value, v.visits[m'].entry.value);
      }
    }
    forall m' | m' in v'.published ensures MarkedIn(v.ch, m', if m' in v'.imm then Some(v'.imm[m']) else None) {
      if m' != m { assert MarkedIn(v.ch, m', if m' in v.imm then Some(v.imm[m']) else None); }
    }
  }

  lemma PublishImm(v: View, m: nat, e: Entry)
    requires TableInv(v) && EntryOk(v.h, e, m) && (v.top.Some? ==> v.top.value <= e.ver)
    requires forall m' :: m' in v.published ==> m' < m
    ensures ImmOk(v.h, v.imm[m := e], v.sst, Some(e.ver)) && SstOk(v.h, v.sst, Some(e.ver))
    ensures TopOk(v.h, v.imm[m := e], v.sst, Some(e.ver), m)
  {
    forall m' | m' in v.imm ensures ImmEntryOk(v.h, v.imm[m'], m', v.sst, Some(e.ver)) {
      assert ImmEntryOk(v.h, v.imm[m'], m', v.sst, v.top);
    }
    assert TopInImm(v.imm[m := e], e.ver, m);
  }

  lemma PublishTables(v: View, m: nat)
    requires KeyInv(v) && FlushSane(v) && m in v.visits && m !in v.sealed
    ensures TableInv(PublishView(v, m))
  {
    assert VisitOk(v.ch, v.h, m, v.visits[m], false, v.top);
    if v.visits[m].entry.Some? { PublishImm(v, m, v.visits[m].entry.value); }
  }

  lemma PublishKeeps(v: View, m: nat)
    requires KeyInv(v) && FlushSane(v) && IsMin(m, v.visits.Keys) && !v.visits[m].todo && m !in v.sealed
    ensures KeyInv(PublishView(v, m))
  {
    var v' := PublishView(v, m);
    assert VisitOk(v.ch, v.h, m, v.visits[m], false, v.top);
    PublishVisits(v, m);
    PublishTables(v, m);
    forall c | c in v.h ensures InChain(v.ch, c) || Gone(v.ch, v'.top, c) {
      if !InChain(v.ch, c) { assert Gone(v.ch, v.top, c); }
    }
  }

  /** Garbage collection keeps the nodes before the one its flush claimed. */
  function CutView(v: View, j: nat): View
    requires j <= |v.ch|
  {
    v.(ch := v.ch[..j])
  }

  /** The node a published flush claimed, where the chain may be cut. */
  ghost predicate CutPoint(v: View, m: nat, j: nat) {
    m in v.published && j == FirstOld(v.ch, 0, m) && j < |v.ch| && v.ch[j].collected == m
  }

  /** The node at the cut is in a published table. */
  lemma CutIsPublished(v: View, m: nat, j: nat)
    requires PublishedOk(v.ch, v.published, v.imm) && ImmOk(v.h, v.imm, v.sst, v.top) && CutPoint(v, m, j)
    ensures m in v.imm && Holds(v.ch[j], v.imm[m]) && v.top.Some? && v.ch[j].stamp.ts <= v.top.value
  {
    assert MarkedIn(v.ch, m, if m in v.imm then Some(v.imm[m]) else None);
    assert ImmEntryOk(v.h, v.imm[m], m, v.sst, v.top);
  }

  lemma CutCovered(ch: Versions, h: map<nat, Version>, top: Option<nat>, m: nat, j: nat)
    requires Shape(ch) && Covered(ch, h, top) && j == FirstOld(ch, 0, m) && j < |ch|
    requires top.Some? && ch[j].stamp.ts <= top.value
    ensures Covered(ch[..j], h, top)
  {
    forall c | c in h ensures InChain(ch[..j], c) || Gone(ch[..j], top, c) {
      if InChain(ch, c) {
        var i :| 0 <= i < |ch| && ch[i].stamp == Stamp.Commit(c);
        if i < j { assert ch[..j][i].stamp == Stamp.Commit(c); }
      } else {
        assert Gone(ch, top, c);
      }
    }
  }

  lemma CutOwned(ch: Versions, owners: map<nat, Owner>, h: map<nat, Version>, m: nat, j: nat)
    requires Owned(ch, owners, h) && j == FirstOld(ch, 0, m) && j < |ch|
    ensures Owned(ch[..j], owners, h)
  {
    forall s | s in owners ensures WriteAtHead(owners, ch[..j], s) { assert WriteAtHead(owners, ch, s); }
    forall i | 0 <= i < j ensures OwnedBy(owners, h, ch[..j][i]) { assert OwnedBy(owners, h, ch[i]); }
  }

  lemma CutCommitted(ch: Versions, h: map<nat, Version>, j: nat)
    requires CommittedOk(ch, h) && j <= |ch|
    ensures CommittedOk(ch[..j], h)
  {
    forall i | 0 <= i < j ensures TopOfGroup(ch[..j], i) <==> TopOfGroup(ch, i) {}
  }

  lemma CutChain(v: View, m: nat, j: nat)
    requires ChainInv(v) && CutPoint(v, m, j) && v.top.Some? && v.ch[j].stamp.ts <= v.top.value
    ensures ChainInv(CutView(v, j))
  {
    CutCovered(v.ch, v.h, v.top, m, j);
    CutOwned(v.ch, v.owners, v.h, m, j);
    CutCommitted(v.ch, v.h, j);
  }

  lemma CutVisit(ch: Versions, h: map<nat, Version>, m: nat, j: nat, m': nat, visit: Visit, resumed: bool, top: Option<nat>, fs: set<nat>)
    requires VisitOk(ch, h, m', visit, resumed, top) && MarksOk(ch, fs)
    requires j == FirstOld(ch, 0, m) && j < |ch| && ch[j].collected == m && 0 < m <= m' && (m' == m ==> visit.entry.None?)
    ensures VisitOk(ch[..j], h, m', visit, resumed, top)
  {
    FirstOldCut(ch, j, m');
    if visit.entry.Some? {
      var i :| 0 <= i < |ch| && ch[i].collected == m' && Holds(ch[i], visit.entry.value);
      assert MarkOk(ch, i, fs);
      assert i < j by { assert Old(ch[j], m'); }
      assert ch[..j][i].collected == m';
    }
  }

  lemma CutMarks(ch: Versions, fs: set<nat>, sealed: set<nat>, j: nat)
    requires MarksOk(ch, fs) && SealedOk(ch, sealed) && j <= |ch|
    ensures MarksOk(ch[..j], fs) && SealedOk(ch[..j], sealed)
  {
    forall m' | m' in sealed ensures Claimed(ch[..j], m') { FirstOldCut(ch, j, m'); assert Claimed(ch, m'); }
    forall i | 0 <= i < j ensures MarkOk(ch[..j], i, fs) { FirstOldCut(ch, j, ch[i].collected); assert MarkOk(ch, i, fs); }
  }

  lemma CutCollect(v: View, m: nat, j: nat)
    requires CollectInv(v) && FlushSane(v) && CutPoint(v, m, j)
    ensures CollectInv(CutView(v, j))
  {
    var ch', fs := v.ch[..j], v.sealed + v.visits.Keys;
    CutMarks(v.ch, fs, v.sealed, j);
    forall m' | m' in v.visits ensures VisitOk(ch', v.h, m', v.visits[m'], m' in v.sealed, v.top) {
      CutVisit(v.ch, v.h, m, j, m', v.visits[m'], m' in v.sealed, v.top, fs);
    }
    forall m' | m' in v.published ensures MarkedIn(ch', m', if m' in v.imm then Some(v.imm[m']) else None) {
      assert MarkedIn(v.ch, m', if m' in v.imm then Some(v.imm[m']) else None);
    }
  }

  lemma CutKeeps(v: View, m: nat, j: nat)
    requires KeyInv(v) && FlushSane(v) && CutPoint(v, m, j)
    ensures KeyInv(CutView(v, j))
  {
    CutIsPublished(v, m, j);
    CutChain(v, m, j);
    CutCollect(v, m, j);
  }

  function InstallView(v: View, m: nat): View {
    v.(published := v.published - {m}, imm := v.imm - {m},
       sst := if m in v.imm && v.imm[m].record.Some? then Some(v.imm[m]) else v.sst)
  }

  lemma InstallTables(h: map<nat, Version>, imm: map<nat, Entry>, sst: Option<Entry>, top: Option<nat>, lastPub: nat, m: nat)
    requires ImmOk(h, imm, sst, top) && SstOk(h, sst, top) && TopOk(h, imm, sst, top, lastPub)
    requires m in imm && forall m' :: m' in imm ==> m <= m'
    ensures
      var sst' := if imm[m].record.Some? then Some(imm[m]) else sst;
      ImmOk(h, imm - {m}, sst', top) && SstOk(h, sst', top) && TopOk(h, imm - {m}, sst', top, lastPub)
  {
    var sst' := if imm[m].record.Some? then Some(imm[m]) else sst;
    assert ImmEntryOk(h, imm[m], m, sst, top);
    forall m' | m' in imm - {m} ensures ImmEntryOk(h, imm[m'], m', sst', top) {
      assert ImmEntryOk(h, imm[m'], m', sst, top);
    }
    var n :| TopInImm(imm, top.value, n);
    if imm - {m} == map[] {
      assert n !in imm - {m};
      assert n == m;
    } else {
      assert exists m' :: m' in imm - {m};
      assert n != m;
      assert TopInImm(imm - {m}, top.value, n);
    }
  }

  lemma InstallKeeps(v: View, m: nat)
    requires KeyInv(v) && IsMin(m, v.published)
    ensures KeyInv(InstallView(v, m))
  {
    var v' := InstallView(v, m);
    forall m' | m' in v'.published ensures MarkedIn(v.ch, m', if m' in v'.imm then Some(v'.imm[m']) else None) {
      assert MarkedIn(v.ch, m', if m' in v.imm then Some(v.imm[m']) else None);
    }
    if m in v.imm { InstallTables(v.h, v.imm, v.sst, v.top, v.lastPub, m); }
    else { assert v'.imm == v.imm; }
  }
}

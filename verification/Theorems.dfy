/** What the store promises over all its runs. */
module Theorems {
  import opened Options
  import opened Chain
  import opened Protocol
  import opened Invariant
  import opened ViewSteps
  import opened Preservation
  import opened Runs
  import opened Published

  ghost predicate Reachable(w: World) {
    exists buf: nat, es :: buf >= 2 && ValidRun(InitWorld(buf), es) && Exec(InitWorld(buf), es) == w
  }

  lemma ReachableInv(w: World)
    requires Reachable(w)
    ensures Inv(w)
  {
    var buf: nat, es :| buf >= 2 && ValidRun(InitWorld(buf), es) && Exec(InitWorld(buf), es) == w;
    InitInv(buf);
    RunKeeps(InitWorld(buf), es);
  }

  // ----- reads -----

  /** No delete of the key is visible to the transaction. */
  ghost predicate NeverDeleted(sp: Spec, s: nat, k: Key)
    requires s in sp.txns
  {
    && (k in sp.txns[s].writes ==> sp.txns[s].writes[k].Some?)
    && forall c :: c in HistOf(sp, k) && c <= s ==> HistOf(sp, k)[c].record.Some?
  }

  /** A key with no version at the transaction's start is in no table either, however long it runs. */
  lemma NothingStored(w1: World, es: seq<Event>, es': seq<Event>, s: nat, k: Key)
    requires LookupRun(w1, es, es', s) && Newest(HistOf(w1.spec, k), s).None?
    ensures StorageRead(Exec(w1, es).db, Exec(Exec(w1, es), es').db, k) == None
  {
    var w2 := Exec(w1, es);
    var w3 := Exec(w2, es');
    var v1, v2, v3 := ViewOf(w1, k), ViewOf(w2, k), ViewOf(w3, k);
    LookupStates(w1, es, es', s, k);
    assert SpecActive(w1.spec, s);
    PrescribedStable(v1, v2, s, None);
    PrescribedStable(v2, v3, s, None);
    if v2.top.Some? { TopVisible(v2, s); }
    if v3.top.Some? { TopVisible(v3, s); }
    ImmReadEmpty(w2, k);
    assert SstOk(v3.h, v3.sst, v3.top);
  }

  lemma ReachableLive(w: World, k: Key)
    requires Reachable(w)
    ensures Inv(w) && LiveOk(w, k)
  {
    var buf: nat, es :| buf >= 2 && ValidRun(InitWorld(buf), es) && Exec(InitWorld(buf), es) == w;
    InitInv(buf);
    RunKeeps(InitWorld(buf), es);
    LiveRun(InitWorld(buf), es, k);
  }

  /** The lookup through memtable, immutable tables and sstables returns exactly what the history
      prescribes, with any steps of other threads between the layers; the one exception is a key that the
      history has nothing for, and it is one exactly when a flush has published a value of it: before the
      immutable tables were read, or, once installed, before the sstables were. */
  lemma SnapshotRead(w1: World, es: seq<Event>, es': seq<Event>, s: nat, k: Key)
    requires Reachable(w1) && s in w1.db.xips && Idle(s, es) && Idle(s, es')
    requires ValidRun(w1, es) && ValidRun(Exec(w1, es), es')
    ensures
      var w2, w3 := Exec(w1, es), Exec(Exec(w1, es), es');
      var read := LayeredRead(w1.db, w2.db, w3.db, s, k);
      && s in w1.spec.txns
      && (read == SpecRead(w1.spec, s, k) <==> SpecRead(w1.spec, s, k).Some? || !Surfaces(w2, w3, k))
      && (NeverDeleted(w1.spec, s, k) ==> read == SpecRead(w1.spec, s, k))
  {
    ReachableLive(w1, k);
    LayeredLookup(w1, es, es', s, k);
    RunKeeps(w1, es);
    LiveRun(w1, es, k);
    StorageReadIff(Exec(w1, es), es', k);
    if SpecRead(w1.spec, s, k).None? && NeverDeleted(w1.spec, s, k) { NothingStored(w1, es, es', s, k); }
  }

  /** Between steps a caller can tell beforehand: a transaction that has deleted a key, or sees it deleted,
      reads nothing exactly when no flush has published a value of the key yet. */
  lemma DeletedReadIff(w: World, s: nat, k: Key)
    requires Reachable(w) && s in w.db.xips && s in w.spec.txns && SpecRead(w.spec, s, k) == None
    ensures LayeredRead(w.db, w.db, w.db, s, k) == None <==> k !in w.firstLive
  {
    assert ValidRun(w, []) && Exec(w, []) == w;
    SnapshotRead(w, [], [], s, k);
    ReachableLive(w, k);
  }

  /** A key's chain after a step. */
  function ChainAfter(d: Db, e: Event, k: Key): Versions {
    var ch := ChainOf(d, k);
    match e
    case WriteKey(s, k', rec) => if k' == k then Push(ch, s, rec) else ch
    case CommitTxn(s) => if k in RedoOf(d, s) && k in d.mem then StampAll(ch, s, d.counter) else ch
    case RollbackKey(s, k') => if k' == k && k in d.mem then Unwind(ch, s) else ch
    case SnapshotKey(m, k') => if k' == k && Collectable(ch, m) then Mark(ch, m) else ch
    case GcKey(m, k') => if k' != k || ch == [] then ch else if Removable(ch, m) then [] else Truncate(ch, m)
    case _ => ch
  }

  lemma ChainSteps(d: Db, e: Event, k: Key)
    requires Enabled(d, e)
    ensures ChainOf(Apply(d, e), k) == ChainAfter(d, e, k)
  {
    match e
    case SnapshotKey(m, k') =>
    case GcKey(m, k') =>
    case _ =>
  }

  /** A version that has left a chain never comes back. */
  lemma NoReturnChain(d: Db, e: Event, k: Key, c: nat)
    requires c < d.counter && InChain(ChainAfter(d, e, k), c)
    ensures InChain(ChainOf(d, k), c)
  {
    var ch, ch' := ChainOf(d, k), ChainAfter(d, e, k);
    var i :| 0 <= i < |ch'| && ch'[i].stamp == Stamp.Commit(c);
    if ch' == ch || e.GcKey? {
      assert ch[i].stamp == Stamp.Commit(c);
    } else if e.WriteKey? {
      assert ch[i - 1].stamp == Stamp.Commit(c);
    } else if e.RollbackKey? {
      assert ch[i + OwnRun(ch, 0, e.start)].stamp == Stamp.Commit(c);
    } else {
      assert ch[i].stamp == Stamp.Commit(c);
    }
  }

  lemma NoReturn(w: World, e: Event, k: Key, c: nat)
    requires Enabled(w.db, e) && c < w.db.counter && InChain(ChainOf(Step(w, e).db, k), c)
    ensures InChain(ChainOf(w.db, k), c)
  {
    ChainSteps(w.db, e, k);
    NoReturnChain(w.db, e, k, c);
  }

  lemma {:induction false} NoReturnRun(w: World, es: seq<Event>, k: Key, c: nat)
    requires Inv(w) && ValidRun(w, es) && c < w.db.counter && InChain(ChainOf(Exec(w, es).db, k), c)
    ensures InChain(ChainOf(w.db, k), c)
    decreases |es|
  {
    if es != [] {
      StepKeeps(w, es[0]);
      TimeSteps(w, es[0]);
      NoReturnRun(Step(w, es[0]), es[1..], k, c);
      NoReturn(w, es[0], k, c);
    }
  }

  /** What is prescribed does not change while the transaction runs, so its reads are repeatable; the
      chain walk alone keeps returning the same value until garbage collection takes it to the tables. */
  lemma RepeatableRead(w: World, es: seq<Event>, s: nat, k: Key)
    requires Reachable(w) && s in w.db.xips && Idle(s, es) && ValidRun(w, es)
    ensures
      var w' := Exec(w, es);
      && s in w.spec.txns && s in w'.spec.txns
      && SpecRead(w'.spec, s, k) == SpecRead(w.spec, s, k)
      && (MemRead(w'.db, s, k) == MemRead(w.db, s, k) || MemRead(w'.db, s, k).None?)
      && (k in w.spec.txns[s].writes ==> MemRead(w'.db, s, k) == w.spec.txns[s].writes[k])
  {
    ReachableInv(w);
    assert Exec(Exec(w, es), []) == Exec(w, es);
    LookupStates(w, es, [], s, k);
    IdleRun(w, es, s);
    assert SpecActive(w.spec, s);
    var own := Lookup(w.spec.txns[s].writes, k);
    var v, v' := ViewOf(w, k), ViewOf(Exec(w, es), k);
    PrescribedStable(v, v', s, own);
    WalkReads(v, s, own);
    WalkReads(v', s, own);
    var c := Newest(v.h, s);
    if c.Some? && InChain(v'.ch, c.value) { NoReturnRun(w, es, k, c.value); }
  }

  // ----- transactions and the history they leave -----

  /** `x` committed a write of `k` at `c`. */
  ghost predicate Wrote(sp: Spec, x: nat, k: Key, c: nat) {
    x in sp.txns && sp.txns[x].phase == Committed(c) && k in sp.txns[x].writes
  }

  /** The history is exactly what the committed transactions wrote, each at its commit timestamp. */
  ghost predicate Faithful(sp: Spec, k: Key) {
    && (forall x, c :: Wrote(sp, x, k, c) ==>
          c in HistOf(sp, k) && HistOf(sp, k)[c] == Version(sp.txns[x].writes[k], x))
    && (forall c :: c in HistOf(sp, k) ==> Wrote(sp, HistOf(sp, k)[c].writer, k, c))
  }

  lemma FaithfulCommit(w: World, s: nat, k: Key)
    requires TxnInv(w) && Faithful(w.spec, k) && Enabled(w.db, CommitTxn(s))
    requires HistOk(HistOf(w.spec, k), w.db.counter)
    ensures Faithful(Step(w, CommitTxn(s)).spec, k)
  {
    assert SpecActive(w.spec, s);
    CommitHistProjects(w, s, k);
    var sp, sp' := w.spec, Step(w, CommitTxn(s)).spec;
    var h, h' := HistOf(sp, k), HistOf(sp', k);
    forall x, c | Wrote(sp', x, k, c) ensures c in h' && h'[c] == Version(sp'.txns[x].writes[k], x) {
      if x != s { assert Wrote(sp, x, k, c); }
    }
    forall c | c in h' ensures Wrote(sp', h'[c].writer, k, c) {
      if c in h { assert Wrote(sp, h[c].writer, k, c); }
    }
  }

  /** Steps other than commits change neither the history nor what committed transactions wrote. */
  lemma FaithfulQuiet(sp: Spec, e: Event, k: Key)
    requires Faithful(sp, k) && !e.CommitTxn? && sp.counter !in sp.txns
    ensures Faithful(SpecApply(sp, e), k)
  {
    var sp' := SpecApply(sp, e);
    assert sp'.hist == sp.hist;
    var h := HistOf(sp, k);
    forall x, c | Wrote(sp', x, k, c) ensures c in h && h[c] == Version(sp'.txns[x].writes[k], x) {
      WroteQuiet(sp, e, x, k, c);
    }
    forall c | c in h ensures Wrote(sp', h[c].writer, k, c) { WroteQuiet(sp, e, h[c].writer, k, c); }
  }

  lemma WroteQuiet(sp: Spec, e: Event, x: nat, k: Key, c: nat)
    requires !e.CommitTxn? && sp.counter !in sp.txns
    ensures Wrote(SpecApply(sp, e), x, k, c) <==> Wrote(sp, x, k, c)
    ensures Wrote(sp, x, k, c) ==> SpecApply(sp, e).txns[x].writes[k] == sp.txns[x].writes[k]
  {
    match e
    case StartTxn =>
    case WriteKey(s, k', rec) =>
    case AbortTxn(s) =>
    case _ =>
  }

  lemma {:induction false} FaithfulRun(w: World, es: seq<Event>, k: Key)
    requires Inv(w) && Faithful(w.spec, k) && ValidRun(w, es)
    ensures Faithful(Exec(w, es).spec, k)
    decreases |es|
  {
    if es != [] {
      StepKeeps(w, es[0]);
      assert KeyInv(ViewOf(w, k));
      if es[0].CommitTxn? { FaithfulCommit(w, es[0].start, k); } else { FaithfulQuiet(w.spec, es[0], k); }
      FaithfulRun(Step(w, es[0]), es[1..], k);
    }
  }

  lemma ReachableFaithful(w: World, k: Key)
    requires Reachable(w)
    ensures Inv(w) && Faithful(w.spec, k)
  {
    var buf: nat, es :| buf >= 2 && ValidRun(InitWorld(buf), es) && Exec(InitWorld(buf), es) == w;
    InitInv(buf);
    RunKeeps(InitWorld(buf), es);
    FaithfulRun(InitWorld(buf), es, k);
  }

  /** Snapshot isolation's write rule: of two transactions that wrote the same key, the one that
      committed last started after the other had committed. */
  lemma FirstCommitterWins(w: World, k: Key, x: nat, c: nat, x': nat, c': nat)
    requires Reachable(w) && Wrote(w.spec, x, k, c) && Wrote(w.spec, x', k, c') && x != x'
    ensures !(x < c' < c)
  {
    ReachableFaithful(w, k);
    assert KeyInv(ViewOf(w, k));
  }

  /** All or nothing: a running transaction sees of another one either, on every key that one wrote,
      its write or something newer, or nothing on any key. */
  lemma AtomicVisibility(w: World, s: nat, x: nat, k: Key)
    requires Reachable(w) && s in w.db.xips && x in w.spec.txns && x != s
    ensures
      var n := Newest(HistOf(w.spec, k), s);
      if w.spec.txns[x].phase.Committed? && w.spec.txns[x].phase.ts <= s
      then k in w.spec.txns[x].writes ==> n.Some? && n.value >= w.spec.txns[x].phase.ts
      else n.Some? ==> HistOf(w.spec, k)[n.value].writer != x
  {
    ReachableFaithful(w, k);
    var n := Newest(HistOf(w.spec, k), s);
    if w.spec.txns[x].phase.Committed? && k in w.spec.txns[x].writes { assert Wrote(w.spec, x, k, w.spec.txns[x].phase.ts); }
    if n.Some? { assert Wrote(w.spec, HistOf(w.spec, k)[n.value].writer, k, n.value); }
  }

  /** A writer that meets no conflict holds the newest version: the head of the chain is what it
      would read, and nothing newer was ever committed. Hence an update loses nothing. */
  lemma WriterSeesHead(w: World, s: nat, k: Key)
    requires Reachable(w) && s in w.db.xips && !Conflict(ChainOf(w.db, k), s)
    ensures s in w.spec.txns
    ensures forall c :: c in HistOf(w.spec, k) ==> c <= s
    ensures ChainOf(w.db, k) != [] ==>
      MemRead(w.db, s, k) == ChainOf(w.db, k)[0].record == SpecRead(w.spec, s, k)
  {
    ReachableInv(w);
    ReaderOf(w, s, k);
    var v := ViewOf(w, k);
    WriterIsCurrent(v, s);
    var own := Lookup(w.spec.txns[s].writes, k);
    WalkReads(v, s, own);
    if v.ch != [] {
      assert Visible(v.ch[0], s) && FirstVisible(v.ch, 0, s) == 0;
      assert OwnedBy(v.owners, v.h, v.ch[0]);
      if own.None? {
        assert TopOfGroup(v.ch, 0);
        NewestIs(v.h, s, v.ch[0].stamp.ts);
      }
    }
  }

  lemma {:induction false} ExecConcat(w: World, es: seq<Event>, es': seq<Event>)
    requires ValidRun(w, es) && ValidRun(Exec(w, es), es')
    ensures ValidRun(w, es + es') && Exec(w, es + es') == Exec(Exec(w, es), es')
    decreases |es|
  {
    if es == [] {
      assert es + es' == es';
    } else {
      assert (es + es')[1..] == es[1..] + es' && (es + es')[0] == es[0];
      ExecConcat(Step(w, es[0]), es[1..], es');
    }
  }

  lemma ReachableRun(w: World, es: seq<Event>)
    requires Reachable(w) && ValidRun(w, es)
    ensures Reachable(Exec(w, es))
  {
    var buf: nat, fs :| buf >= 2 && ValidRun(InitWorld(buf), fs) && Exec(InitWorld(buf), fs) == w;
    ExecConcat(InitWorld(buf), fs, es);
  }

  /** Read, compute, write: the memtable is asked at `w1`, the immutable tables at `w2`, the sstables at `w3`, and
      the write goes through at `w4`, with any steps of other threads between. Then no version has been committed
      since the transaction started, and what was read is what the history still prescribes, but for the one
      exception of a lookup. */
  lemma UpdateLosesNothing(w1: World, es: seq<Event>, es': seq<Event>, es'': seq<Event>, s: nat, k: Key, rec: Option<Value>)
    requires Reachable(w1) && s in w1.db.xips && Idle(s, es) && Idle(s, es') && Idle(s, es'')
    requires ValidRun(w1, es) && ValidRun(Exec(w1, es), es') && ValidRun(Exec(Exec(w1, es), es'), es'')
    requires Enabled(Exec(Exec(Exec(w1, es), es'), es'').db, WriteKey(s, k, rec))
    ensures
      var w2, w3 := Exec(w1, es), Exec(Exec(w1, es), es');
      var w4 := Exec(w3, es'');
      && s in w4.spec.txns
      && (LayeredRead(w1.db, w2.db, w3.db, s, k) == SpecRead(w4.spec, s, k)
          <==> SpecRead(w4.spec, s, k).Some? || !Surfaces(w2, w3, k))
      && forall c :: c in HistOf(w4.spec, k) ==> c <= s
  {
    hide Reachable, Exec, ValidRun, Idle, LayeredRead, SpecRead, Surfaces;
    var w2 := Exec(w1, es);
    SnapshotRead(w1, es, es', s, k);
    RepeatableRead(w1, es, s, k);
    ReachableRun(w1, es);
    ReachableInv(w1);
    IdleRun(w1, es, s);
    StillCurrent(w2, es', es'', s, k);
  }

  /** What is prescribed stays, and a writer without a conflict is current. */
  lemma CurrentThrough(v1: View, v2: View, v3: View, s: nat, own: Option<Option<Value>>)
    requires Advances(v1, v2) && Advances(v2, v3) && s < v1.counter && ReaderView(v3, s, own) && !Conflict(v3.ch, s)
    ensures Prescribed(v3.h, own, s) == Prescribed(v1.h, own, s) && forall c :: c in v3.h ==> c <= s
  {
    PrescribedStable(v1, v2, s, own);
    PrescribedStable(v2, v3, s, own);
    WriterIsCurrent(v3, s);
  }

  /** A transaction inside a lookup is in all three specifications, with the same writes. */
  lemma SameWrites(w1: World, es: seq<Event>, es': seq<Event>, s: nat)
    requires Inv(w1) && s in w1.db.xips && Idle(s, es) && Idle(s, es') && ValidRun(w1, es) && ValidRun(Exec(w1, es), es')
    ensures
      var w3 := Exec(Exec(w1, es), es');
      && s in w1.spec.txns && s in w3.spec.txns && w3.spec.txns[s] == w1.spec.txns[s] && s < w1.db.counter
  {
    hide KeyInv, ViewOf;
    IdleRun(w1, es, s);
    RunKeeps(w1, es);
    IdleRun(Exec(w1, es), es', s);
    assert SpecActive(w1.spec, s);
  }

  /** What was prescribed at the start of the lookup still is, and a writer without a conflict is current. */
  lemma StillCurrent(w1: World, es: seq<Event>, es': seq<Event>, s: nat, k: Key)
    requires Reachable(w1) && s in w1.db.xips && Idle(s, es) && Idle(s, es')
    requires ValidRun(w1, es) && ValidRun(Exec(w1, es), es')
    requires !Conflict(ChainOf(Exec(Exec(w1, es), es').db, k), s)
    ensures
      var w3 := Exec(Exec(w1, es), es');
      && s in w1.spec.txns && s in w3.spec.txns
      && SpecRead(w3.spec, s, k) == SpecRead(w1.spec, s, k) && forall c :: c in HistOf(w3.spec, k) ==> c <= s
  {
    hide KeyInv, ReaderView, Advances, SpecRead, Conflict;
    var w3 := Exec(Exec(w1, es), es');
    ReachableInv(w1);
    LookupStates(w1, es, es', s, k);
    SameWrites(w1, es, es', s);
    var own := Lookup(w1.spec.txns[s].writes, k);
    CurrentThrough(ViewOf(w1, k), ViewOf(Exec(w1, es), k), ViewOf(w3, k), s, own);
    PrescribedIsSpecRead(w1, s, k);
    PrescribedIsSpecRead(w3, s, k);
  }

  // ----- chains -----

  /** Every reachable chain: uncommitted nodes of one transaction, then committed ones, newest first. */
  lemma ChainShape(w: World, k: Key)
    requires Reachable(w)
    ensures Shape(ChainOf(w.db, k))
    ensures forall c :: InChain(ChainOf(w.db, k), c) ==> c in HistOf(w.spec, k)
  {
    ReachableInv(w);
    assert KeyInv(ViewOf(w, k));
  }

  lemma FirstVisibleIs(ch: Versions, s: nat, i: nat)
    requires i <= |ch| && (i < |ch| ==> Visible(ch[i], s)) && forall j :: 0 <= j < i ==> !Visible(ch[j], s)
    ensures FirstVisible(ch, 0, s) == i
  {
  }

  lemma UnwindExact(ch: Versions, s: nat, x: nat)
    requires Shape(ch) && x != s
    ensures forall i :: 0 <= i < |Unwind(ch, s)| ==> Unwind(ch, s)[i].stamp != Uncommitted(s)
    ensures ChainValue(Unwind(ch, s), x) == ChainValue(ch, x)
  {
    var r, i := OwnRun(ch, 0, s), FirstVisible(ch, 0, x);
    forall j | r <= j < |ch| ensures ch[j].stamp != Uncommitted(s) {
      if ch[j].stamp.Uncommitted? { UncommittedRun(ch, j); UncommittedRun(ch, r); }
    }
    assert i >= r;
    FirstVisibleIs(Unwind(ch, s), x, i - r);
  }

  /** Rolling back removes exactly the aborting transaction's nodes and changes nobody else's read. */
  lemma RollbackRemovesOwn(w: World, s: nat, k: Key, x: nat)
    requires Reachable(w) && Enabled(w.db, RollbackKey(s, k)) && x != s
    ensures
      var ch, ch' := ChainOf(w.db, k), ChainOf(Step(w, RollbackKey(s, k)).db, k);
      && (exists r: nat :: r <= |ch| && ch' == ch[r..] && forall i :: 0 <= i < r ==> ch[i].stamp == Uncommitted(s))
      && (forall i :: 0 <= i < |ch'| ==> ch'[i].stamp != Uncommitted(s))
      && ChainValue(ch', x) == ChainValue(ch, x)
  {
    ChainShape(w, k);
    UnwindExact(ChainOf(w.db, k), s, x);
    assert ChainOf(Step(w, RollbackKey(s, k)).db, k) == ChainOf(w.db, k)[OwnRun(ChainOf(w.db, k), 0, s)..];
  }

  // ----- garbage collection and flushes -----

  /** From `j` on the chain holds committed versions that the entry `e` of flush `m` supersedes. */
  ghost predicate Superseded(ch: Versions, j: nat, e: Option<Entry>, m: nat) {
    forall i :: j <= i < |ch| ==>
      && ch[i].stamp.Commit? && e.Some? && ch[i].stamp.ts <= e.value.ver < m
      && (i == j ==> Holds(ch[i], e.value))
  }

  lemma CutSupersedes(ch: Versions, m: nat, j: nat, e: Entry)
    requires Shape(ch) && j == FirstOld(ch, 0, m) && j < |ch| && Holds(ch[j], e)
    ensures Superseded(ch, j, Some(e), m)
  {
  }

  lemma CutKeepsConflicts(ch: Versions, m: nat, j: nat, s: nat)
    requires j == FirstOld(ch, 0, m) && j < |ch| && m <= s && forall i :: 0 <= i < |ch| && ch[i].stamp.Commit? ==> ch[i].stamp.ts > 0
    ensures Conflict(ch[..j], s) <==> Conflict(ch, s)
  {
  }

  lemma GcChain(w: World, m: nat, k: Key)
    requires Inv(w) && Enabled(w.db, GcKey(m, k))
    ensures
      var v := ViewOf(w, k);
      var j := if v.ch == [] then 0 else GcCut(v.ch, m);
      && ChainOf(Step(w, GcKey(m, k)).db, k) == v.ch[..j]
      && (j == |v.ch| || (CutPoint(v, m, j) && m in v.imm && Holds(v.ch[j], v.imm[m])))
  {
    var v := ViewOf(w, k);
    assert FlushTs(w.db, m);
    if v.ch != [] {
      GcCutPoint(v, m);
      GcProjects(w, m, k);
      if GcCut(v.ch, m) < |v.ch| { CutIsPublished(v, m, GcCut(v.ch, m)); }
    }
  }

  /** Garbage collection only unlinks committed versions that its own published table supersedes for
      every running transaction, and it never changes the outcome of a conflict check. */
  lemma GcIsSafe(w: World, m: nat, k: Key)
    requires Reachable(w) && Enabled(w.db, GcKey(m, k))
    ensures
      var ch, ch' := ChainOf(w.db, k), ChainOf(Step(w, GcKey(m, k)).db, k);
      && |ch'| <= |ch| && ch' == ch[..|ch'|]
      && Superseded(ch, |ch'|, Lookup(w.db.imm[m], k), m)
      && forall s :: s in w.db.xips ==> m <= s && (Conflict(ch', s) <==> Conflict(ch, s))
  {
    hide Reachable, Step, Shape, CutPoint, Superseded, Conflict, CollectInv, TableInv, TxnInv;
    ReachableInv(w);
    GcChain(w, m, k);
    ChainShape(w, k);
    assert FlushTs(w.db, m);
    var v := ViewOf(w, k);
    var ch, ch' := v.ch, ChainOf(Step(w, GcKey(m, k)).db, k);
    assert KeyInv(v);
    if |ch'| < |ch| {
      assert |ch'| == FirstOld(ch, 0, m) by { CutIs(v, m, |ch'|); }
      CutSupersedes(ch, m, |ch'|, v.imm[m]);
      forall s | s in w.db.xips ensures Conflict(ch', s) <==> Conflict(ch, s) {
        StampsPositive(v);
        CutKeepsConflicts(ch, m, |ch'|, s);
      }
    } else {
      assert ch[..|ch|] == ch && ch' == ch;
      NothingCut(ch, Lookup(w.db.imm[m], k), m);
    }
  }

  lemma CutIs(v: View, m: nat, j: nat)
    requires CutPoint(v, m, j)
    ensures j == FirstOld(v.ch, 0, m)
  {
  }

  lemma StampsPositive(v: View)
    requires ChainInv(v)
    ensures forall i :: 0 <= i < |v.ch| && v.ch[i].stamp.Commit? ==> v.ch[i].stamp.ts > 0
  {
  }

  lemma NothingCut(ch: Versions, e: Option<Entry>, m: nat)
    ensures Superseded(ch, |ch|, e, m)
  {
  }

  /** A run that comes to publish a second table for a flush timestamp. */
  ghost predicate Duplicates(buf: nat, es: seq<Event>, m: nat) {
    && ValidRun(InitWorld(buf), es)
    && Enabled(Exec(InitWorld(buf), es).db, Publish(m)) && m in Exec(InitWorld(buf), es).db.imm
  }

  lemma NeverDuplicates(buf: nat, es: seq<Event>, m: nat)
    requires buf >= 2
    ensures !Duplicates(buf, es, m)
  {
    if ValidRun(InitWorld(buf), es) {
      InitInv(buf);
      RunKeeps(InitWorld(buf), es);
      if Enabled(Exec(InitWorld(buf), es).db, Publish(m)) { PublishOnce(Exec(InitWorld(buf), es), m); }
    }
  }

  /** The duplicate-table branch that the program marks unreachable is reachable exactly when the
      write buffer option is below two: then empty tables are published. */
  lemma DuplicatePublishIff(buf: nat)
    ensures (exists es, m :: Duplicates(buf, es, m)) <==> buf < 2
  {
    if buf >= 2 {
      forall es, m ensures !Duplicates(buf, es, m) { NeverDuplicates(buf, es, m); }
    } else {
      TinyBufferRun(buf);
    }
  }

  lemma TinyBufferRun(buf: nat)
    requires buf < 2
    ensures Duplicates(buf, [StartTxn, Register(1), Publish(1), Register(1)], 1)
  {
    TinySteps(buf);
    hide Step, Enabled, InitWorld;
    var w1 := Step(InitWorld(buf), StartTxn);
    var w2 := Step(w1, Register(1));
    var w3 := Step(w2, Publish(1));
    assert ValidRun(w3, [Register(1)]) && Exec(w3, [Register(1)]) == Step(w3, Register(1));
    assert [Publish(1), Register(1)][1..] == [Register(1)];
    assert ValidRun(w2, [Publish(1), Register(1)]);
    assert [Register(1), Publish(1), Register(1)][1..] == [Publish(1), Register(1)];
    assert ValidRun(w1, [Register(1), Publish(1), Register(1)]);
    assert [StartTxn, Register(1), Publish(1), Register(1)][1..] == [Register(1), Publish(1), Register(1)];
  }

  lemma TinySteps(buf: nat)
    requires buf < 2
    ensures
      var w0 := InitWorld(buf);
      && Enabled(w0.db, StartTxn)
      && var w1 := Step(w0, StartTxn);
         && Enabled(w1.db, Register(1))
         && var w2 := Step(w1, Register(1));
            && Enabled(w2.db, Publish(1))
            && var w3 := Step(w2, Publish(1));
               && Enabled(w3.db, Register(1))
               && var w4 := Step(w3, Register(1));
                  Enabled(w4.db, Publish(1)) && 1 in w4.db.imm
  {
  }

  /** Flush timestamps reach the version set in strictly ascending order. */
  lemma InstallsAscend(w: World, m: nat)
    requires Reachable(w) && Enabled(w.db, Install(m))
    ensures m > w.db.minXip
  {
    ReachableInv(w);
  }
}

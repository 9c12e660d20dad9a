/** Runs of the store, and what holds along every one of them. */
module Runs {
  import opened Options
  import opened Chain
  import opened Protocol
  import opened Invariant
  import opened ViewSteps
  import opened Preservation

  predicate ValidRun(w: World, es: seq<Event>)
    decreases |es|
  {
    es == [] || (Enabled(w.db, es[0]) && ValidRun(Step(w, es[0]), es[1..]))
  }

  function Exec(w: World, es: seq<Event>): World
    requires ValidRun(w, es)
    decreases |es|
  {
    if es == [] then w else Exec(Step(w, es[0]), es[1..])
  }

  lemma {:induction false} RunKeeps(w: World, es: seq<Event>)
    requires Inv(w) && ValidRun(w, es)
    ensures Inv(Exec(w, es))
    decreases |es|
  {
    if es != [] {
      StepKeeps(w, es[0]);
      RunKeeps(Step(w, es[0]), es[1..]);
    }
  }

  // ----- what only moves forward -----

  /** From `v` to `v'` the history grows above the counter and published versions only get newer. */
  ghost predicate Advances(v: View, v': View) {
    && v.counter <= v'.counter
    && (forall c :: c in v.h ==> c in v'.h && v'.h[c] == v.h[c])
    && (forall c :: c in v'.h && c !in v.h ==> c >= v.counter)
    && (v.top.Some? ==> v'.top.Some? && v.top.value <= v'.top.value)
    && (v.sst.Some? ==> v'.sst.Some? && v.sst.value.ver <= v'.sst.value.ver)
  }

  lemma PublishAdvances(v: View, m: nat)
    requires KeyInv(v) && m in v.visits
    ensures Advances(v, PublishView(v, m))
  {
    assert VisitOk(v.ch, v.h, m, v.visits[m], m in v.sealed, v.top);
  }

  lemma InstallAdvances(v: View, m: nat)
    requires KeyInv(v)
    ensures Advances(v, InstallView(v, m))
  {
    if m in v.imm { assert ImmEntryOk(v.h, v.imm[m], m, v.sst, v.top); }
  }

  lemma CommitAdvances(w: World, s: nat, k: Key)
    requires Enabled(w.db, CommitTxn(s)) && SpecActive(w.spec, s) && w.db.counter == w.spec.counter
    requires HistOk(HistOf(w.spec, k), w.db.counter)
    ensures Advances(ViewOf(w, k), ViewOf(Step(w, CommitTxn(s)), k))
  {
    CommitHistProjects(w, s, k);
  }

  /** All other events leave the history and the published tables of a key alone. */
  lemma QuietStep(w: World, e: Event, k: Key)
    requires Enabled(w.db, e) && !e.CommitTxn? && !e.Publish? && !e.Install?
    ensures HistOf(Step(w, e).spec, k) == HistOf(w.spec, k) && Step(w, e).top == w.top
    ensures Step(w, e).db.sst == w.db.sst && Step(w, e).db.counter >= w.db.counter
  {
  }

  lemma StepAdvances(w: World, e: Event, k: Key)
    requires TxnInv(w) && FlushInv(w) && KeyInv(ViewOf(w, k)) && Enabled(w.db, e)
    ensures Advances(ViewOf(w, k), ViewOf(Step(w, e), k))
  {
    match e
    case CommitTxn(s) =>
      assert SpecActive(w.spec, s);
      CommitAdvances(w, s, k);
    case Publish(m) =>
      PublishOnce(w, m);
      PublishProjects(w, m, k);
      PublishAdvances(ViewOf(w, k), m);
    case Install(m) =>
      InstallProjects(w, m, k);
      InstallAdvances(ViewOf(w, k), m);
    case _ => QuietStep(w, e, k);
  }

  lemma {:induction false} RunAdvances(w: World, es: seq<Event>, k: Key)
    requires Inv(w) && ValidRun(w, es)
    ensures Advances(ViewOf(w, k), ViewOf(Exec(w, es), k))
    decreases |es|
  {
    if es != [] {
      var w1 := Step(w, es[0]);
      StepKeeps(w, es[0]);
      StepAdvances(w, es[0], k);
      RunAdvances(w1, es[1..], k);
    }
  }

  /** The transaction's own thread takes no step in these events: it is inside one lookup. */
  predicate Idle(s: nat, es: seq<Event>) {
    forall i :: 0 <= i < |es| ==>
      match es[i]
      case WriteKey(s', _, _) => s' != s
      case CommitTxn(s') => s' != s
      case AbortTxn(s') => s' != s
      case _ => true
  }

  lemma IdleStep(w: World, e: Event, s: nat)
    requires TxnInv(w) && s in w.db.xips && Enabled(w.db, e) && Idle(s, [e])
    ensures s in Step(w, e).db.xips && s in w.spec.txns && s in Step(w, e).spec.txns
    ensures Step(w, e).spec.txns[s] == w.spec.txns[s]
  {
    assert SpecActive(w.spec, s);
    assert [e][0] == e;
  }

  lemma {:induction false} IdleRun(w: World, es: seq<Event>, s: nat)
    requires Inv(w) && s in w.db.xips && ValidRun(w, es) && Idle(s, es)
    ensures s in Exec(w, es).db.xips && s in w.spec.txns && s in Exec(w, es).spec.txns
    ensures Exec(w, es).spec.txns[s] == w.spec.txns[s]
    decreases |es|
  {
    assert SpecActive(w.spec, s);
    if es != [] {
      assert Idle(s, [es[0]]);
      StepKeeps(w, es[0]);
      IdleStep(w, es[0], s);
      IdleRun(Step(w, es[0]), es[1..], s);
    }
  }

  // ----- one transaction, one key, one state -----

  lemma NewestIs(h: map<nat, Version>, s: nat, c: nat)
    requires c in h && c <= s && forall c' :: c' in h && c' <= s ==> c' <= c
    ensures Newest(h, s) == Some(c)
  {
  }

  lemma NewestNone(h: map<nat, Version>, s: nat)
    requires forall c :: c in h ==> c > s
    ensures Newest(h, s) == None
  {
  }

  /** What a transaction may read of a key in one state: `own` is its last write of the key. */
  ghost predicate ReaderView(v: View, s: nat, own: Option<Option<Value>>) {
    && KeyInv(v) && FlushesBelow(v, s)
    && s in v.owners && v.owners[s].active && v.owners[s].write == own
  }

  lemma ReaderOf(w: World, s: nat, k: Key)
    requires Inv(w) && s in w.db.xips
    ensures s in w.spec.txns && ReaderView(ViewOf(w, k), s, Lookup(w.spec.txns[s].writes, k))
  {
    assert SpecActive(w.spec, s);
    ViewBelow(w, k, s);
  }

  function Prescribed(h: map<nat, Version>, own: Option<Option<Value>>, s: nat): Option<Value> {
    if own.Some? then own.value
    else
      var c := Newest(h, s);
      if c.None? then None else h[c.value].record
  }

  lemma PrescribedIsSpecRead(w: World, s: nat, k: Key)
    requires s in w.spec.txns
    ensures SpecRead(w.spec, s, k) == Prescribed(HistOf(w.spec, k), Lookup(w.spec.txns[s].writes, k), s)
  {
  }

  /** The first visible node of a transaction without a write is its newest visible version. */
  lemma WalkFinds(v: View, s: nat, i: nat)
    requires ReaderView(v, s, None) && i == FirstVisible(v.ch, 0, s) && i < |v.ch|
    ensures v.ch[i].stamp.Commit? && Newest(v.h, s) == Some(v.ch[i].stamp.ts) && v.ch[i].record == v.h[v.ch[i].stamp.ts].record
  {
    assert WriteAtHead(v.owners, v.ch, s) && OwnedBy(v.owners, v.h, v.ch[i]);
    var c := v.ch[i].stamp.ts;
    forall c' | c' in v.h && c' <= s ensures c' <= c {
      if InChain(v.ch, c') {
        var j :| 0 <= j < |v.ch| && v.ch[j].stamp == Stamp.Commit(c');
        assert j >= i by { assert Visible(v.ch[j], s); }
      }
    }
    NewestIs(v.h, s, c);
    assert TopOfGroup(v.ch, i);
  }

  lemma WalkMisses(ch: Versions, s: nat, c: nat)
    requires FirstVisible(ch, 0, s) >= |ch| && c <= s
    ensures !InChain(ch, c)
  {
    forall j | 0 <= j < |ch| ensures ch[j].stamp != Stamp.Commit(c) { assert !Visible(ch[j], s); }
  }

  /** The chain walk returns the transaction's own write, or the newest version at its start as
      long as that version is still in the chain. */
  lemma WalkReads(v: View, s: nat, own: Option<Option<Value>>)
    requires ReaderView(v, s, own)
    ensures own.Some? ==> ChainValue(v.ch, s) == own.value
    ensures
      var c := Newest(v.h, s);
      own.None? ==>
        ChainValue(v.ch, s) == (if c.Some? && InChain(v.ch, c.value) then v.h[c.value].record else None)
  {
    var i := FirstVisible(v.ch, 0, s);
    assert WriteAtHead(v.owners, v.ch, s);
    if own.None? {
      if i < |v.ch| {
        WalkFinds(v, s, i);
      } else if Newest(v.h, s).Some? {
        WalkMisses(v.ch, s, Newest(v.h, s).value);
      }
    }
  }

  /** Published versions are visible to every running transaction. */
  lemma TopVisible(v: View, s: nat)
    requires TopOk(v.h, v.imm, v.sst, v.top, v.lastPub) && v.lastPub <= s && v.top.Some?
    ensures v.top.value in v.h && v.top.value <= s
    ensures Newest(v.h, s).Some? && Newest(v.h, s).value >= v.top.value
  {
  }

  /** When the version to be read has been published, the tables agree on it. */
  lemma TablesRead(v: View, s: nat)
    requires KeyInv(v) && FlushesBelow(v, s) && v.top.Some? && Newest(v.h, s) == v.top
    requires v.h[v.top.value].record.Some?
    ensures v.imm != map[] ==> exists m :: TopInImm(v.imm, v.top.value, m) && v.imm[m].record == v.h[v.top.value].record
    ensures v.imm == map[] ==> v.sst.Some? && v.sst.value.ver == v.top.value && v.sst.value.record == v.h[v.top.value].record
  {
    if v.imm != map[] {
      var m :| TopInImm(v.imm, v.top.value, m);
      assert ImmEntryOk(v.h, v.imm[m], m, v.sst, v.top);
    }
  }

  // ----- the layered lookup -----

  /** What the storage layers hold for a key when the memtable comes up empty. */
  function StorageRead(d2: Db, d3: Db, k: Key): Option<Value> {
    if ImmRead(d2.imm, d2.counter, k).Some? then ImmRead(d2.imm, d2.counter, k) else SstRead(d3, k)
  }

  /** The search of the immutable tables finds a key's newest published version when it is live. */
  lemma ImmReadView(w: World, k: Key, m: nat)
    requires FlushInv(w)
    requires
      var imm := ImmOf(w.db.imm, k);
      m in imm && imm[m].record.Some? && forall m' :: m' in imm ==> m' <= m
    ensures ImmRead(w.db.imm, w.db.counter, k) == ImmOf(w.db.imm, k)[m].record
  {
    forall m' | m' in w.db.imm && m' > m ensures k !in w.db.imm[m'] { assert m' !in ImmOf(w.db.imm, k); }
    assert FlushTs(w.db, m);
    ImmReadLive(w.db.imm, w.db.counter, k, m);
  }

  lemma ImmReadEmpty(w: World, k: Key)
    requires ImmOf(w.db.imm, k) == map[]
    ensures ImmRead(w.db.imm, w.db.counter, k) == None
  {
    forall m | m in w.db.imm ensures k !in w.db.imm[m] { assert m !in ImmOf(w.db.imm, k); }
    ImmReadNone(w.db.imm, w.db.counter, k);
  }

  /** Three states along a run in which transaction `s` is inside one lookup. */
  ghost predicate LookupRun(w1: World, es: seq<Event>, es': seq<Event>, s: nat) {
    && Inv(w1) && s in w1.db.xips && Idle(s, es) && Idle(s, es')
    && ValidRun(w1, es) && ValidRun(Exec(w1, es), es')
  }

  lemma LookupStates(w1: World, es: seq<Event>, es': seq<Event>, s: nat, k: Key)
    requires LookupRun(w1, es, es', s)
    ensures
      var w2 := Exec(w1, es); var w3 := Exec(w2, es');
      && s in w1.spec.txns && Inv(w2) && Inv(w3)
      && var own := Lookup(w1.spec.txns[s].writes, k);
      && ReaderView(ViewOf(w1, k), s, own) && ReaderView(ViewOf(w2, k), s, own) && ReaderView(ViewOf(w3, k), s, own)
      && Advances(ViewOf(w1, k), ViewOf(w2, k)) && Advances(ViewOf(w2, k), ViewOf(w3, k))
  {
    var w2 := Exec(w1, es);
    IdleRun(w1, es, s);
    RunKeeps(w1, es);
    IdleRun(w2, es', s);
    RunKeeps(w2, es');
    RunAdvances(w1, es, k);
    RunAdvances(w2, es', k);
    ReaderOf(w1, s, k);
    ReaderOf(w2, s, k);
    ReaderOf(Exec(w2, es'), s, k);
  }

  /** What is prescribed to a running transaction does not change under it. */
  lemma PrescribedStable(v: View, v': View, s: nat, own: Option<Option<Value>>)
    requires Advances(v, v') && s < v.counter
    ensures Newest(v'.h, s) == Newest(v.h, s) && Prescribed(v'.h, own, s) == Prescribed(v.h, own, s)
  {
    var c := Newest(v.h, s);
    if c.Some? { NewestIs(v'.h, s, c.value); } else { NewestNone(v'.h, s); }
  }

  /** Once the prescribed version `c` has been published, it is the newest published one as long as
      the reader runs. */
  ghost predicate Pinned(v: View, s: nat, c: nat) {
    v.top == Some(c) && Newest(v.h, s) == Some(c)
  }

  lemma PinnedAtStart(v: View, s: nat, c: nat)
    requires Covered(v.ch, v.h, v.top) && TopOk(v.h, v.imm, v.sst, v.top, v.lastPub) && v.lastPub <= s
    requires Newest(v.h, s) == Some(c) && !InChain(v.ch, c)
    ensures Pinned(v, s, c)
  {
    assert Gone(v.ch, v.top, c);
    TopVisible(v, s);
  }

  lemma PinnedLater(v: View, v': View, s: nat, c: nat)
    requires Pinned(v, s, c) && Advances(v, v') && s < v.counter
    requires TopOk(v'.h, v'.imm, v'.sst, v'.top, v'.lastPub) && v'.lastPub <= s
    ensures Pinned(v', s, c) && v'.h[c] == v.h[c]
  {
    PrescribedStable(v, v', s, None);
    TopVisible(v', s);
  }

  /** A prescribed value that is not in the chain any more is found below, in whichever layer it has reached. */
  lemma StorageHasIt(w2: World, w3: World, s: nat, k: Key, c: nat)
    requires FlushInv(w2)
    requires
      var v2, v3 := ViewOf(w2, k), ViewOf(w3, k);
      && KeyInv(v2) && FlushesBelow(v2, s) && Pinned(v2, s, c) && v2.h[c].record.Some?
      && KeyInv(v3) && FlushesBelow(v3, s) && Pinned(v3, s, c) && Advances(v2, v3)
    ensures StorageRead(w2.db, w3.db, k) == HistOf(w2.spec, k)[c].record
  {
    var v2, v3 := ViewOf(w2, k), ViewOf(w3, k);
    TablesRead(v2, s);
    if v2.imm != map[] {
      var m :| TopInImm(v2.imm, c, m) && v2.imm[m].record == v2.h[c].record;
      ImmReadView(w2, k, m);
    } else {
      ImmReadEmpty(w2, k);
      InSst(v2, v3, c);
    }
  }

  lemma InSst(v2: View, v3: View, c: nat)
    requires v2.sst.Some? && v2.sst.value.ver == c && c in v2.h
    requires v3.top == Some(c) && SstOk(v3.h, v3.sst, v3.top) && Advances(v2, v3)
    ensures v3.sst.Some? && v3.sst.value.record == v2.h[c].record
  {
  }

  /** The layered lookup, with any steps of other threads between its layers. */
  lemma LayeredLookup(w1: World, es: seq<Event>, es': seq<Event>, s: nat, k: Key)
    requires LookupRun(w1, es, es', s)
    ensures
      var d2, d3 := Exec(w1, es).db, Exec(Exec(w1, es), es').db;
      && s in w1.spec.txns
      && (SpecRead(w1.spec, s, k).Some? ==> LayeredRead(w1.db, d2, d3, s, k) == SpecRead(w1.spec, s, k))
      && (SpecRead(w1.spec, s, k).None? ==> LayeredRead(w1.db, d2, d3, s, k) == StorageRead(d2, d3, k))
  {
    var w2 := Exec(w1, es);
    var w3 := Exec(w2, es');
    var v1, v2, v3 := ViewOf(w1, k), ViewOf(w2, k), ViewOf(w3, k);
    LookupStates(w1, es, es', s, k);
    var own := Lookup(w1.spec.txns[s].writes, k);
    WalkReads(v1, s, own);
    PrescribedIsSpecRead(w1, s, k);
    if SpecRead(w1.spec, s, k).Some? && own.None? && !InChain(v1.ch, Newest(v1.h, s).value) {
      var c := Newest(v1.h, s).value;
      assert SpecActive(w1.spec, s);
      PinnedAtStart(v1, s, c);
      PinnedLater(v1, v2, s, c);
      PinnedLater(v2, v3, s, c);
      StorageHasIt(w2, w3, s, k, c);
    }
  }

  lemma {:induction false} RunGrows(w: World, es: seq<Event>)
    requires Inv(w) && ValidRun(w, es)
    ensures Exec(w, es).db.counter >= w.db.counter
    decreases |es|
  {
    if es != [] {
      StepKeeps(w, es[0]);
      TimeSteps(w, es[0]);
      RunGrows(Step(w, es[0]), es[1..]);
    }
  }
}

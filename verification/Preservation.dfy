/** Every event keeps the invariant, hence every run does. */
module Preservation {
  import opened Options
  import opened Chain
  import opened Protocol
  import opened Invariant
  import opened ViewSteps

  lemma ViewSane(w: World, k: Key)
    requires FlushInv(w) && w.db.counter >= 1
    ensures FlushSane(ViewOf(w, k))
  {
    var v := ViewOf(w, k);
    assert v.visits.Keys == w.db.collecting.Keys;
    forall m | m in v.sealed + v.visits.Keys ensures 0 < m < v.counter && m < U32 { assert FlushTs(w.db, m); }
    if w.lastPub != 0 { assert FlushTs(w.db, w.lastPub); }
  }

  lemma ViewBelow(w: World, k: Key, s: nat)
    requires FlushInv(w) && s in w.db.xips
    ensures FlushesBelow(ViewOf(w, k), s)
  {
    var v := ViewOf(w, k);
    forall m | m in v.sealed + v.visits.Keys ensures m <= s { assert FlushTs(w.db, m); }
    if w.lastPub != 0 { assert FlushTs(w.db, w.lastPub); }
  }

  lemma InitInv(writeBufferSize: nat)
    requires writeBufferSize >= 2
    ensures Inv(InitWorld(writeBufferSize))
  {
  }

  // ----- what a step does to a view -----

  /** Owners after one transaction's record and redo list change. */
  lemma OwnersUpdate(txns: map<nat, Txn>, redo: map<nat, set<Key>>, s: nat, t: Txn, redo': map<nat, set<Key>>, k: Key)
    requires forall x :: x != s ==> (x in redo' <==> x in redo) && (x in redo ==> redo'[x] == redo[x])
    ensures OwnersOf(txns[s := t], redo', k) ==
      if t.phase.Committed? then OwnersOf(txns, redo, k) - {s}
      else OwnersOf(txns, redo, k)[s := Owner(t.phase.Active?, s in redo' && k in redo'[s], Lookup(t.writes, k))]
  {
  }

  /** A view reads the memtable and the collecting flushes only through the key. */
  lemma ViewWith(w: World, mem: map<Key, Versions>, collecting: map<nat, Flush>, k: Key)
    ensures ViewOf(w.(db := w.db.(mem := mem, collecting := collecting)), k) ==
      ViewOf(w, k).(ch := if k in mem then mem[k] else [], visits := VisitsOf(collecting, k))
  {
  }

  lemma StartProjects(w: World, k: Key)
    requires TxnInv(w)
    ensures ViewOf(Step(w, StartTxn), k) == StartView(ViewOf(w, k))
    ensures forall s :: s in ViewOf(w, k).owners ==> s < w.db.counter
  {
    OwnersUpdate(w.spec.txns, w.db.redo, w.db.counter, Txn(Active, map[]), w.db.redo[w.db.counter := {}], k);
  }

  lemma WriteProjects(w: World, s: nat, k: Key, rec: Option<Value>, k': Key)
    requires SpecActive(w.spec, s) && Enabled(w.db, WriteKey(s, k, rec))
    ensures s in ViewOf(w, k').owners && ViewOf(w, k').owners[s].active
    ensures ViewOf(Step(w, WriteKey(s, k, rec)), k') == if k' == k then WriteView(ViewOf(w, k), s, rec) else ViewOf(w, k')
  {
    var t := w.spec.txns[s];
    OwnersUpdate(w.spec.txns, w.db.redo, s, t.(writes := t.writes[k := rec]), w.db.redo[s := RedoOf(w.db, s) + {k}], k');
  }

  /** The chain of a key after a commit: stamped when the transaction wrote the key. */
  lemma CommitChainProjects(w: World, s: nat, k: Key)
    requires s in w.db.xips
    requires k in RedoOf(w.db, s) ==> ChainOf(w.db, k) != []
    ensures ChainOf(Step(w, CommitTxn(s)).db, k) ==
      if k in RedoOf(w.db, s) then StampAll(ChainOf(w.db, k), s, w.db.counter) else ChainOf(w.db, k)
  {
  }

  lemma CommitHistProjects(w: World, s: nat, k: Key)
    requires s in w.db.xips && SpecActive(w.spec, s)
    ensures
      var writes := w.spec.txns[s].writes;
      HistOf(Step(w, CommitTxn(s)).spec, k) ==
        if k in writes then HistOf(w.spec, k)[w.spec.counter := Version(writes[k], s)] else HistOf(w.spec, k)
  {
  }

  function CommitWorld(w: World, s: nat): World
    requires s in w.spec.txns
  {
    var d := w.db.(counter := w.db.counter + 1, xips := w.db.xips - {s}, redo := w.db.redo - {s},
                   mem := StampMem(w.db.mem, RedoOf(w.db, s), s, w.db.counter));
    var sp := w.spec.(counter := w.spec.counter + 1,
                      txns := w.spec.txns[s := w.spec.txns[s].(phase := Committed(w.spec.counter))],
                      hist := Extend(w.spec, s, w.spec.txns[s].writes));
    w.(db := d, spec := sp)
  }

  lemma CommitIs(w: World, s: nat)
    requires Enabled(w.db, CommitTxn(s)) && SpecActive(w.spec, s)
    ensures Step(w, CommitTxn(s)) == CommitWorld(w, s)
  {
  }

  lemma CommitWorldProjects(w: World, s: nat, k: Key)
    requires s in w.db.xips && SpecActive(w.spec, s) && w.db.counter == w.spec.counter
    requires ChainOf(CommitWorld(w, s).db, k) ==
      if k in RedoOf(w.db, s) then StampAll(ChainOf(w.db, k), s, w.db.counter) else ChainOf(w.db, k)
    requires k in w.spec.txns[s].writes <==> k in RedoOf(w.db, s)
    requires HistOf(CommitWorld(w, s).spec, k) ==
      if k in w.spec.txns[s].writes then HistOf(w.spec, k)[w.spec.counter := Version(w.spec.txns[s].writes[k], s)] else HistOf(w.spec, k)
    ensures s in ViewOf(w, k).owners && ViewOf(w, k).owners[s].active
    ensures ViewOf(CommitWorld(w, s), k) == CommitView(ViewOf(w, k), s)
  {
    OwnersUpdate(w.spec.txns, w.db.redo, s, w.spec.txns[s].(phase := Committed(w.spec.counter)), w.db.redo - {s}, k);
  }

  lemma CommitProjects(w: World, s: nat, k: Key)
    requires Enabled(w.db, CommitTxn(s)) && SpecActive(w.spec, s) && w.db.counter == w.spec.counter
    requires w.spec.txns[s].writes.Keys == RedoOf(w.db, s)
    requires k in RedoOf(w.db, s) ==> ChainOf(w.db, k) != []
    ensures s in ViewOf(w, k).owners && ViewOf(w, k).owners[s].active
    ensures ViewOf(Step(w, CommitTxn(s)), k) == CommitView(ViewOf(w, k), s)
  {
    assert k in w.spec.txns[s].writes <==> k in RedoOf(w.db, s);
    CommitIs(w, s);
    CommitChainProjects(w, s, k);
    CommitHistProjects(w, s, k);
    CommitWorldProjects(w, s, k);
  }

  lemma AbortProjects(w: World, s: nat, k: Key)
    requires Enabled(w.db, AbortTxn(s)) && SpecActive(w.spec, s)
    ensures s in ViewOf(w, k).owners
    ensures ViewOf(Step(w, AbortTxn(s)), k) == AbortView(ViewOf(w, k), s)
  {
    OwnersUpdate(w.spec.txns, w.db.redo, s, w.spec.txns[s].(phase := Aborted), w.db.redo, k);
  }

  lemma RollbackProjects(w: World, s: nat, k: Key, k': Key)
    requires TxnInv(w) && Enabled(w.db, RollbackKey(s, k))
    ensures s in ViewOf(w, k').owners && !ViewOf(w, k').owners[s].active
    ensures ViewOf(Step(w, RollbackKey(s, k)), k') == if k' == k then RollbackView(ViewOf(w, k), s) else ViewOf(w, k')
  {
    var t := w.spec.txns[s];
    assert w.spec.txns[s := t] == w.spec.txns;
    OwnersUpdate(w.spec.txns, w.db.redo, s, t, w.db.redo[s := RedoOf(w.db, s) - {k}], k');
  }

  lemma RegisterProjects(w: World, m: nat, k: Key)
    requires Enabled(w.db, Register(m))
    ensures m !in VisitsOf(w.db.collecting, k) && (k !in w.db.mem ==> ChainOf(w.db, k) == [])
    ensures ViewOf(Step(w, Register(m)), k) == RegisterView(ViewOf(w, k), m, k in w.db.mem)
  {
    var w' := Step(w, Register(m));
    assert ViewOf(w', k).owners == ViewOf(w, k).owners;
    assert VisitsOf(w'.db.collecting, k) == VisitsOf(w.db.collecting, k)[m := Visit(k in w.db.mem, None)];
  }

  lemma VisitsUpdate(collecting: map<nat, Flush>, m: nat, f: Flush, k: Key)
    requires m in collecting
    ensures VisitsOf(collecting[m := f], k) == VisitsOf(collecting, k)[m := Visit(k in f.todo, Lookup(f.table, k))]
  {
  }

  lemma SnapshotParts(d: Db, m: nat, k: Key)
    requires m in d.collecting && k in d.mem
    ensures
      var ch := d.mem[k];
      var d' := SnapshotDb(d, m, k);
      var f := SnapshotFlushOf(d.collecting[m], ch, m, k);
      && d' == d.(mem := d'.mem, collecting := d.collecting[m := f])
      && d'.mem.Keys == d.mem.Keys && d'.mem[k] == (if Collectable(ch, m) then Mark(ch, m) else ch)
      && forall k' :: k' in d.mem && k' != k ==> d'.mem[k'] == d.mem[k']
  {
  }

  function SnapshotFlushOf(f: Flush, ch: Versions, m: nat, k: Key): Flush {
    var table := if Collectable(ch, m) then f.table[k := Entry(ch[FirstOld(ch, 0, m)].stamp.ts, ch[FirstOld(ch, 0, m)].record)] else f.table;
    Flush(f.todo - {k}, table)
  }

  lemma SameVisit(collecting: map<nat, Flush>, m: nat, f: Flush, k: Key)
    requires m in collecting && (k in f.todo <==> k in collecting[m].todo) && Lookup(f.table, k) == Lookup(collecting[m].table, k)
    ensures VisitsOf(collecting[m := f], k) == VisitsOf(collecting, k)
  {
    VisitsUpdate(collecting, m, f, k);
    assert VisitsOf(collecting, k)[m := VisitsOf(collecting, k)[m]] == VisitsOf(collecting, k);
  }

  lemma SnapshotProjects(w: World, m: nat, k: Key, k': Key)
    requires m in w.db.collecting && k in w.db.mem
    ensures m in ViewOf(w, k).visits
    ensures ViewOf(w.(db := SnapshotDb(w.db, m, k)), k') == if k' == k then SnapshotView(ViewOf(w, k), m) else ViewOf(w, k')
  {
    var d' := SnapshotDb(w.db, m, k);
    var f := SnapshotFlushOf(w.db.collecting[m], w.db.mem[k], m, k);
    SnapshotParts(w.db, m, k);
    ViewWith(w, d'.mem, d'.collecting, k');
    if k' == k { VisitsUpdate(w.db.collecting, m, f, k); } else { SameVisit(w.db.collecting, m, f, k'); }
  }

  lemma CancelProjects(w: World, m: nat, k: Key)
    requires Enabled(w.db, Cancel(m))
    ensures m in VisitsOf(w.db.collecting, k) && !VisitsOf(w.db.collecting, k)[m].todo
    ensures ViewOf(Step(w, Cancel(m)), k) == CancelView(ViewOf(w, k), m)
  {
    var w' := Step(w, Cancel(m));
    assert ViewOf(w', k).owners == ViewOf(w, k).owners;
    assert VisitsOf(w'.db.collecting, k) == VisitsOf(w.db.collecting, k) - {m};
  }

  lemma PublishVisitsOf(collecting: map<nat, Flush>, m: nat, k: Key)
    requires m in collecting
    ensures VisitsOf(collecting - {m}, k) == VisitsOf(collecting, k) - {m}
    ensures VisitsOf(collecting, k).Keys == collecting.Keys
    ensures VisitsOf(collecting, k)[m] == Visit(k in collecting[m].todo, Lookup(collecting[m].table, k))
  {
  }

  lemma PublishImmOf(imm: map<nat, Table>, m: nat, t: Table, k: Key)
    requires m !in imm
    ensures ImmOf(imm[m := t], k) == if k in t then ImmOf(imm, k)[m := t[k]] else ImmOf(imm, k)
    ensures imm[m := t].Keys == imm.Keys + {m}
  {
  }

  lemma PublishTopOf(top: map<Key, nat>, t: Table, k: Key)
    ensures Lookup(Raise(top, t), k) == if k in t then Some(t[k].ver) else Lookup(top, k)
  {
  }

  lemma PublishDbProjects(w: World, m: nat, k: Key)
    requires m in w.db.collecting && m !in w.db.imm
    ensures
      var t := w.db.collecting[m].table;
      var w' := World(PublishDb(w.db, m), w.spec, w.sealed + {m}, Raise(w.top, t), m, NoteLive(w.firstLive, t, m));
      m in ViewOf(w, k).visits && ViewOf(w', k) == PublishView(ViewOf(w, k), m)
  {
    var t := w.db.collecting[m].table;
    PublishVisitsOf(w.db.collecting, m, k);
    PublishImmOf(w.db.imm, m, t, k);
    PublishTopOf(w.top, t, k);
  }

  lemma PublishProjects(w: World, m: nat, k: Key)
    requires Enabled(w.db, Publish(m)) && m !in w.db.imm
    ensures m in ViewOf(w, k).visits
    ensures ViewOf(Step(w, Publish(m)), k) == PublishView(ViewOf(w, k), m)
  {
    PublishDbProjects(w, m, k);
  }

  lemma InstallProjects(w: World, m: nat, k: Key)
    requires Enabled(w.db, Install(m))
    ensures IsMin(m, ViewOf(w, k).published)
    ensures ViewOf(Step(w, Install(m)), k) == InstallView(ViewOf(w, k), m)
  {
    var w' := Step(w, Install(m));
    assert ViewOf(w', k).owners == ViewOf(w, k).owners;
    assert ImmOf(w'.db.imm, k) == ImmOf(w.db.imm, k) - {m};
  }

  lemma DropTodoVisits(collecting: map<nat, Flush>, k: Key, k': Key)
    ensures
      var vs, vs' := VisitsOf(collecting, k'), VisitsOf(DropTodo(collecting, k), k');
      vs'.Keys == vs.Keys && (k' != k ==> vs' == vs) && forall m :: m in vs ==> vs'[m].entry == vs[m].entry
  {
  }

  lemma GcParts(d: Db, m: nat, k: Key)
    requires k in d.mem
    ensures
      var d' := GcDb(d, m, k);
      && d' == d.(mem := d'.mem, collecting := d'.collecting)
      && (d'.collecting == d.collecting || d'.collecting == DropTodo(d.collecting, k))
      && forall k' :: k' != k || d.mem[k] == [] ==> (k' in d'.mem <==> k' in d.mem) && (k' in d.mem ==> d'.mem[k'] == d.mem[k'])
  {
  }

  lemma GcOtherProjects(w: World, m: nat, k: Key, k': Key)
    requires k in w.db.mem && (k' != k || ChainOf(w.db, k) == [])
    ensures ViewOf(w.(db := GcDb(w.db, m, k)), k') == ViewOf(w, k')
  {
    if ChainOf(w.db, k) != [] {
      var d' := GcDb(w.db, m, k);
      GcParts(w.db, m, k);
      DropTodoVisits(w.db.collecting, k, k');
      ViewWith(w, d'.mem, d'.collecting, k');
    }
  }

  /** Where garbage collection cuts a chain: at its start when the entry goes. */
  function GcCut(ch: Versions, m: nat): nat
    requires ch != []
  {
    var j := FirstOld(ch, 1, m);
    if Removable(ch, m) then 0 else if j < |ch| && ch[j].collected == m then j else |ch|
  }

  lemma GcProjects(w: World, m: nat, k: Key)
    requires k in w.db.mem && ChainOf(w.db, k) != []
    ensures
      var v, v' := CutView(ViewOf(w, k), GcCut(ChainOf(w.db, k), m)), ViewOf(w.(db := GcDb(w.db, m, k)), k);
      && v' == v.(visits := v'.visits)
      && v'.visits.Keys == v.visits.Keys
      && forall m' :: m' in v.visits ==> v'.visits[m'].entry == v.visits[m'].entry && (v.ch != [] ==> v'.visits[m'] == v.visits[m'])
  {
    DropTodoVisits(w.db.collecting, k, k);
    assert ChainOf(w.db, k)[..|ChainOf(w.db, k)|] == ChainOf(w.db, k);
  }

  /** Garbage collection cuts only at a node that its own flush claimed. */
  lemma GcCutPoint(v: View, m: nat)
    requires CollectInv(v) && v.ch != [] && m in v.published && 0 < m
    ensures
      var j := GcCut(v.ch, m);
      j == |v.ch| || CutPoint(v, m, j)
  {
    var j := GcCut(v.ch, m);
    if j < |v.ch| { assert MarkOk(v.ch, j, v.sealed + v.visits.Keys); }
  }

  lemma GcKeyStep(w: World, m: nat, k: Key)
    requires TxnInv(w) && FlushInv(w) && KeyInv(ViewOf(w, k)) && m in w.db.imm && k in w.db.mem && ChainOf(w.db, k) != []
    ensures KeyInv(ViewOf(w.(db := GcDb(w.db, m, k)), k))
  {
    var v := ViewOf(w, k);
    var j := GcCut(v.ch, m);
    ViewSane(w, k);
    GcProjects(w, m, k);
    GcCutPoint(v, m);
    if j < |v.ch| { CutKeeps(v, m, j); } else { assert v.ch[..j] == v.ch; }
    VisitsShrink(CutView(v, j), ViewOf(w.(db := GcDb(w.db, m, k)), k).visits);
  }

  /** A visit of a chain that is empty can be struck off at any time. */
  lemma VisitsShrink(v: View, visits: map<nat, Visit>)
    requires KeyInv(v) && visits.Keys == v.visits.Keys
    requires forall m :: m in visits ==> visits[m].entry == v.visits[m].entry && (v.ch != [] ==> visits[m] == v.visits[m])
    ensures KeyInv(v.(visits := visits))
  {
    forall m | m in visits ensures VisitOk(v.ch, v.h, m, visits[m], m in v.sealed, v.top) {
      assert VisitOk(v.ch, v.h, m, v.visits[m], m in v.sealed, v.top);
    }
  }

  /** When asking and registering are one step, no younger flush can have published: the program's
      registration is the register step. */
  lemma AtomicRegister(w: World, m: nat)
    requires Inv(w) && IsMin(m, w.db.xips) && m < U32
    ensures Low(w.db, m) && Unpassed(w.db, m)
  {
    assert SpecActive(w.spec, m);
    if w.lastPub != 0 { assert FlushTs(w.db, w.lastPub); }
  }

  /** The same when nothing runs, and a transaction is started and ended for the purpose. */
  lemma AloneRegister(w: World, m: nat)
    requires Inv(w) && w.db.xips == {} && m == w.db.counter < U32
    ensures
      var d := Apply(Apply(w.db, StartTxn), CommitTxn(m));
      Low(d, m) && Unpassed(d, m)
  {
    if w.lastPub != 0 { assert FlushTs(w.db, w.lastPub); }
  }

  /** The key lemma of the flush protocol: a flush timestamp whose snapshot once ran to its end is
      never published again, because every later snapshot at it comes out empty. */
  lemma PublishOnce(w: World, m: nat)
    requires FlushInv(w) && Enabled(w.db, Publish(m))
    ensures m !in w.sealed && m !in w.db.imm && m > w.lastPub && m > w.db.minXip
  {
    assert w.db.collecting[m].table != map[];
  }

  lemma TxnKeySteps(w: World, e: Event, k: Key)
    requires TxnInv(w) && FlushInv(w) && KeyInv(ViewOf(w, k)) && Enabled(w.db, e)
    requires e.StartTxn? || e.WriteKey? || e.CommitTxn? || e.AbortTxn? || e.RollbackKey?
    ensures KeyInv(ViewOf(Step(w, e), k))
  {
    var v := ViewOf(w, k);
    ViewSane(w, k);
    match e
    case StartTxn => StartProjects(w, k); StartKeeps(v);
    case WriteKey(s, k', rec) =>
      assert SpecActive(w.spec, s);
      WriteProjects(w, s, k', rec, k);
      ViewBelow(w, k, s);
      if k == k' { WriteKeeps(v, s, rec); }
    case CommitTxn(s) =>
      assert SpecActive(w.spec, s);
      assert WriteAtHead(v.owners, v.ch, s);
      CommitProjects(w, s, k);
      CommitKeeps(v, s);
    case AbortTxn(s) =>
      assert SpecActive(w.spec, s);
      AbortProjects(w, s, k);
      AbortKeeps(v, s);
    case RollbackKey(s, k') =>
      RollbackProjects(w, s, k', k);
      if k == k' { RollbackKeeps(v, s); }
  }

  lemma FlushKeySteps(w: World, e: Event, k: Key)
    requires TxnInv(w) && FlushInv(w) && KeyInv(ViewOf(w, k)) && Enabled(w.db, e)
    requires e.Register? || e.SnapshotKey? || e.Cancel? || e.Publish? || e.GcKey? || e.Install?
    ensures KeyInv(ViewOf(Step(w, e), k))
  {
    hide KeyInv, FlushInv;
    assert w.db.counter >= 1;
    hide TxnInv, Step, Apply, SnapshotDb, GcDb, StampMem;
    var v := ViewOf(w, k);
    ViewSane(w, k);
    match e
    case Register(m) => RegisterProjects(w, m, k); RegisterKeeps(v, m, k in w.db.mem);
    case SnapshotKey(m, k') =>
      SnapshotProjects(w, m, k', k);
      if k == k' { SnapshotKeeps(v, m); }
    case Cancel(m) => CancelProjects(w, m, k); CancelKeeps(v, m);
    case Publish(m) =>
      PublishOnce(w, m);
      PublishProjects(w, m, k);
      PublishVisitsOf(w.db.collecting, m, k);
      PublishKeeps(v, m);
    case GcKey(m, k') =>
      if k != k' || ChainOf(w.db, k) == [] { GcOtherProjects(w, m, k', k); } else { GcKeyStep(w, m, k); }
    case Install(m) => InstallProjects(w, m, k); InstallKeeps(v, m);
  }

  // ----- the parts of the invariant that are about no key in particular -----

  lemma TxnSame(w: World, w': World)
    requires TxnInv(w) && w'.spec == w.spec
    requires w'.db.counter == w.db.counter && w'.db.xips == w.db.xips && w'.db.redo == w.db.redo
    ensures TxnInv(w')
  {
  }

  lemma FlushEventsSame(d: Db, e: Event)
    requires Enabled(d, e) && (e.Register? || e.SnapshotKey? || e.Cancel? || e.Publish? || e.GcKey? || e.Install?)
    ensures Apply(d, e).counter == d.counter && Apply(d, e).xips == d.xips && Apply(d, e).redo == d.redo
  {
  }

  lemma StartTxnInv(w: World)
    requires TxnInv(w)
    ensures TxnInv(Step(w, StartTxn))
  {
  }

  lemma WriteTxnInv(w: World, s: nat, k: Key, rec: Option<Value>)
    requires TxnInv(w) && Enabled(w.db, WriteKey(s, k, rec))
    ensures TxnInv(Step(w, WriteKey(s, k, rec)))
  {
    assert SpecActive(w.spec, s);
  }

  lemma CommitTxnInv(w: World, s: nat)
    requires TxnInv(w) && Enabled(w.db, CommitTxn(s))
    ensures TxnInv(Step(w, CommitTxn(s)))
  {
    assert SpecActive(w.spec, s);
  }

  lemma AbortTxnInv(w: World, s: nat)
    requires TxnInv(w) && Enabled(w.db, AbortTxn(s))
    ensures TxnInv(Step(w, AbortTxn(s)))
  {
    assert SpecActive(w.spec, s);
  }

  lemma RollbackTxnInv(w: World, s: nat, k: Key)
    requires TxnInv(w) && Enabled(w.db, RollbackKey(s, k))
    ensures TxnInv(Step(w, RollbackKey(s, k)))
  {
    assert !SpecActive(w.spec, s);
  }

  lemma TxnSteps(w: World, e: Event)
    requires TxnInv(w) && Enabled(w.db, e)
    ensures TxnInv(Step(w, e))
  {
    match e
    case StartTxn => StartTxnInv(w);
    case WriteKey(s, k, rec) => WriteTxnInv(w, s, k, rec);
    case CommitTxn(s) => CommitTxnInv(w, s);
    case AbortTxn(s) => AbortTxnInv(w, s);
    case RollbackKey(s, k) => RollbackTxnInv(w, s, k);
    case _ =>
      FlushEventsSame(w.db, e);
      TxnSame(w, Step(w, e));
  }

  /** Time passes: no new transaction starts before a flush in use. */
  lemma FlushTsKept(d: Db, d': Db, m: nat)
    requires FlushTs(d, m) && d'.counter >= d.counter && d'.xips <= d.xips + {d.counter}
    ensures FlushTs(d', m)
  {
  }

  lemma TimeSteps(w: World, e: Event)
    requires TxnInv(w) && Enabled(w.db, e)
    ensures var d' := Apply(w.db, e); d'.counter >= w.db.counter && d'.xips <= w.db.xips + {w.db.counter}
  {
    match e
    case SnapshotKey(m, k) =>
    case GcKey(m, k) =>
    case _ =>
  }

  lemma FlushTimes(w: World, e: Event)
    requires TxnInv(w) && FlushInv(w) && Enabled(w.db, e)
    ensures forall m :: m in w.sealed || m in w.db.collecting ==> FlushTs(Apply(w.db, e), m)
    ensures e.Register? ==> FlushTs(Apply(w.db, e), e.minXip) && w.lastPub <= e.minXip
  {
    TimeSteps(w, e);
    var d' := Apply(w.db, e);
    forall m | m in w.sealed || m in w.db.collecting ensures FlushTs(d', m) { FlushTsKept(w.db, d', m); }
  }

  /** Events of transactions leave the flushes alone. */
  lemma FlushSame(w: World, w': World)
    requires FlushInv(w) && w'.sealed == w.sealed && w'.lastPub == w.lastPub
    requires w'.db.collecting == w.db.collecting && w'.db.imm == w.db.imm && w'.db.minXip == w.db.minXip
    requires w'.db.writeBufferSize == w.db.writeBufferSize
    requires forall m :: m in w.sealed || m in w.db.collecting ==> FlushTs(w'.db, m)
    ensures FlushInv(w')
  {
  }

  lemma SnapshotFlush(w: World, m: nat, k: Key)
    requires FlushInv(w) && m in w.db.collecting && k in w.db.mem
    requires m in w.sealed ==> !Collectable(ChainOf(w.db, k), m)
    ensures FlushInv(w.(db := SnapshotDb(w.db, m, k)))
  {
    var d' := SnapshotDb(w.db, m, k);
    assert d'.collecting.Keys == w.db.collecting.Keys;
    assert m in w.sealed ==> d'.collecting[m].table == w.db.collecting[m].table;
    forall m' | m' in w.sealed || m' in w.db.collecting ensures FlushTs(d', m') { FlushTsKept(w.db, d', m'); }
  }

  lemma DropTodoTables(collecting: map<nat, Flush>, k: Key)
    ensures DropTodo(collecting, k).Keys == collecting.Keys
    ensures forall m :: m in collecting ==> DropTodo(collecting, k)[m].table == collecting[m].table
  {
  }

  /** A flush invariant reads of the collecting flushes only which there are and what they collected. */
  lemma TablesSame(w: World, d': Db)
    requires FlushInv(w) && d'.collecting.Keys == w.db.collecting.Keys
    requires forall m :: m in w.db.collecting ==> d'.collecting[m].table == w.db.collecting[m].table
    requires d' == w.db.(mem := d'.mem, collecting := d'.collecting)
    ensures FlushInv(w.(db := d'))
  {
    forall m | m in w.sealed || m in w.db.collecting ensures FlushTs(d', m) { FlushTsKept(w.db, d', m); }
  }

  lemma GcFlush(w: World, m: nat, k: Key)
    requires FlushInv(w) && k in w.db.mem
    ensures FlushInv(w.(db := GcDb(w.db, m, k)))
  {
    GcParts(w.db, m, k);
    DropTodoTables(w.db.collecting, k);
    TablesSame(w, GcDb(w.db, m, k));
  }

  lemma PublishFlush(w: World, m: nat)
    requires FlushInv(w) && Enabled(w.db, Publish(m))
    requires forall m' :: m' in w.sealed || m' in w.db.collecting ==> FlushTs(PublishDb(w.db, m), m')
    ensures FlushInv(Step(w, Publish(m)))
  {
    PublishOnce(w, m);
  }

  lemma RegisterInv(w: World, m: nat)
    requires TxnInv(w) && FlushInv(w) && Enabled(w.db, Register(m))
    ensures FlushInv(Step(w, Register(m)))
  {
    FlushTimes(w, Register(m));
  }

  lemma CancelInv(w: World, m: nat)
    requires TxnInv(w) && FlushInv(w) && Enabled(w.db, Cancel(m))
    ensures FlushInv(Step(w, Cancel(m)))
  {
    FlushTimes(w, Cancel(m));
  }

  lemma InstallInv(w: World, m: nat)
    requires TxnInv(w) && FlushInv(w) && Enabled(w.db, Install(m))
    ensures FlushInv(Step(w, Install(m)))
  {
    FlushTimes(w, Install(m));
  }

  lemma FlushSteps(w: World, e: Event)
    requires TxnInv(w) && FlushInv(w) && Enabled(w.db, e)
    requires e.SnapshotKey? && e.minXip in w.sealed ==> !Collectable(ChainOf(w.db, e.key), e.minXip)
    ensures FlushInv(Step(w, e))
  {
    hide FlushInv;
    FlushTimes(w, e);
    match e
    case Register(m) => RegisterInv(w, m);
    case SnapshotKey(m, k) => SnapshotFlush(w, m, k);
    case Cancel(m) => CancelInv(w, m);
    case Publish(m) => PublishFlush(w, m);
    case GcKey(m, k) => GcFlush(w, m, k);
    case Install(m) => InstallInv(w, m);
    case _ => FlushSame(w, Step(w, e));
  }

  /** A snapshot at a timestamp whose snapshot once ran to its end finds nothing to claim. */
  lemma SealedFindsNothing(w: World, m: nat, k: Key)
    requires KeyInv(ViewOf(w, k)) && m in w.sealed
    ensures !Collectable(ChainOf(w.db, k), m)
  {
    assert Claimed(ViewOf(w, k).ch, m);
  }

  lemma StepKeeps(w: World, e: Event)
    requires Inv(w) && Enabled(w.db, e)
    ensures Inv(Step(w, e))
  {
    TxnSteps(w, e);
    if e.SnapshotKey? && e.minXip in w.sealed { SealedFindsNothing(w, e.minXip, e.key); }
    FlushSteps(w, e);
    forall k ensures KeyInv(ViewOf(Step(w, e), k)) {
      if e.StartTxn? || e.WriteKey? || e.CommitTxn? || e.AbortTxn? || e.RollbackKey? { TxnKeySteps(w, e, k); }
      else { FlushKeySteps(w, e, k); }
    }
  }
}

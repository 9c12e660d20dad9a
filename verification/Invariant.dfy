/**
 The inductive invariant of the store. `World` pairs the program with the specification and with
 some bookkeeping that only statements and proofs read. The invariant looks at one key at a time:
 `View` is everything the world says about a key, and each conjunct reads only the parts it needs.
 */
module Invariant {
  import opened Options
  import opened Chain
  import opened Protocol

  datatype World = World(
    db: Db,
    spec: Spec,
    sealed: set<nat>,    // flush timestamps whose snapshot ran to its end at least once
    top: map<Key, nat>,  // newest version of a key that any flush has published
    lastPub: nat,        // largest published flush timestamp
    firstLive: map<Key, nat> // the first flush that published a value, not a tombstone, of a key
  )

  function InitWorld(writeBufferSize: nat): World {
    World(Init(writeBufferSize), SpecInit(), {}, map[], 0, map[])
  }

  function NoteLive(first: map<Key, nat>, t: Table, m: nat): map<Key, nat> {
    map k | k in first.Keys + t.Keys && (k in first || Live(t, k)) :: if k in first then first[k] else m
  }

  function Raise(top: map<Key, nat>, t: Table): map<Key, nat> {
    map k | k in top.Keys + t.Keys :: if k in t then t[k].ver else top[k]
  }

  function Step(w: World, e: Event): World
    requires Enabled(w.db, e)
  {
    var w1 := w.(db := Apply(w.db, e), spec := SpecApply(w.spec, e));
    match e
    case Cancel(m) => w1.(sealed := w.sealed + {m})
    case Publish(m) =>
      w1.(sealed := w.sealed + {m}, top := Raise(w.top, w.db.collecting[m].table), lastPub := m,
          firstLive := NoteLive(w.firstLive, w.db.collecting[m].table, m))
    case _ => w1
  }

  // ----- one key's view of the world -----

  /** A transaction that has not committed: whether it still runs, whether its redo list has the key,
      and its last write of the key. */
  datatype Owner = Owner(active: bool, redo: bool, write: Option<Option<Value>>)

  /** A collecting flush: whether it has still to visit the key, and what it collected. */
  datatype Visit = Visit(todo: bool, entry: Option<Entry>)

  datatype View = View(
    ch: Versions,
    h: map<nat, Version>,
    owners: map<nat, Owner>,
    visits: map<nat, Visit>,
    published: set<nat>,
    imm: map<nat, Entry>,
    sst: Option<Entry>,
    top: Option<nat>,
    counter: nat,
    sealed: set<nat>,
    lastPub: nat
  )

  function Lookup<V>(m: map<Key, V>, k: Key): Option<V> {
    if k in m then Some(m[k]) else None
  }

  function OwnersOf(txns: map<nat, Txn>, redo: map<nat, set<Key>>, k: Key): map<nat, Owner> {
    map s | s in txns && !txns[s].phase.Committed? ::
      Owner(txns[s].phase.Active?, s in redo && k in redo[s], Lookup(txns[s].writes, k))
  }

  function VisitsOf(collecting: map<nat, Flush>, k: Key): map<nat, Visit> {
    map m | m in collecting :: Visit(k in collecting[m].todo, Lookup(collecting[m].table, k))
  }

  function ImmOf(imm: map<nat, Table>, k: Key): map<nat, Entry> {
    map m | m in imm && k in imm[m] :: imm[m][k]
  }

  function ViewOf(w: World, k: Key): View {
    View(ChainOf(w.db, k), HistOf(w.spec, k), OwnersOf(w.spec.txns, w.db.redo, k), VisitsOf(w.db.collecting, k),
         w.db.imm.Keys, ImmOf(w.db.imm, k),
         Lookup(w.db.sst, k), Lookup(w.top, k), w.db.counter, w.sealed, w.lastPub)
  }

  // ----- chains against the history -----

  /** A run of uncommitted nodes of one transaction, then committed nodes, newest first. */
  ghost predicate Shape(ch: Versions) {
    forall i, j :: 0 <= i < j < |ch| ==>
      && (ch[j].stamp.Uncommitted? ==> ch[i].stamp == ch[j].stamp)
      && (ch[i].stamp.Commit? && ch[j].stamp.Commit? ==> ch[i].stamp.ts >= ch[j].stamp.ts)
  }

  ghost predicate InChain(ch: Versions, c: nat) {
    exists i :: 0 <= i < |ch| && ch[i].stamp == Stamp.Commit(c)
  }

  /** Node `i` is the newest node of its transaction. */
  ghost predicate TopOfGroup(ch: Versions, i: nat)
    requires i < |ch|
  {
    i == 0 || ch[i - 1].stamp != ch[i].stamp
  }

  /** An uncommitted node belongs to a transaction that will stamp it or roll it back; a running
      owner started no earlier than any committed version. */
  ghost predicate OwnedBy(owners: map<nat, Owner>, h: map<nat, Version>, n: Node) {
    n.stamp.Uncommitted? ==>
      && n.stamp.ts in owners && owners[n.stamp.ts].redo
      && (owners[n.stamp.ts].active ==>
            owners[n.stamp.ts].write.Some? && forall c :: c in h ==> c <= n.stamp.ts)
  }

  /** A running transaction's last write is the head. */
  ghost predicate WriteAtHead(owners: map<nat, Owner>, ch: Versions, s: nat)
    requires s in owners
  {
    owners[s].active && owners[s].write.Some? ==>
      ch != [] && ch[0].stamp == Uncommitted(s) && ch[0].record == owners[s].write.value
  }

  ghost predicate Owned(ch: Versions, owners: map<nat, Owner>, h: map<nat, Version>) {
    && (forall i :: 0 <= i < |ch| ==> OwnedBy(owners, h, ch[i]))
    && (forall s :: s in owners ==> WriteAtHead(owners, ch, s))
  }

  /** Snapshot isolation's write rule: nothing is committed between a writer's start and its commit. */
  ghost predicate WriteRule(h: map<nat, Version>) {
    forall c, c' :: c in h && c' in h ==> !(h[c].writer < c' < c)
  }

  ghost predicate HistOk(h: map<nat, Version>, counter: nat) {
    && (forall c :: c in h ==> 0 < c < counter && h[c].writer < c)
    && WriteRule(h)
  }

  ghost predicate CommittedOk(ch: Versions, h: map<nat, Version>) {
    forall i :: 0 <= i < |ch| && ch[i].stamp.Commit? ==>
      && ch[i].stamp.ts in h
      && (TopOfGroup(ch, i) ==> ch[i].record == h[ch[i].stamp.ts].record)
  }

  /** A version that left the chain lies below everything still in it and is covered by a published one. */
  ghost predicate Gone(ch: Versions, top: Option<nat>, c: nat) {
    && top.Some? && c <= top.value
    && forall i :: 0 <= i < |ch| && ch[i].stamp.Commit? ==> ch[i].stamp.ts > c
  }

  ghost predicate Covered(ch: Versions, h: map<nat, Version>, top: Option<nat>) {
    forall c :: c in h ==> InChain(ch, c) || Gone(ch, top, c)
  }

  ghost predicate ChainInv(v: View) {
    && Shape(v.ch)
    && Owned(v.ch, v.owners, v.h)
    && HistOk(v.h, v.counter)
    && CommittedOk(v.ch, v.h)
    && Covered(v.ch, v.h, v.top)
  }

  // ----- collection marks -----

  /** A claimed node is the first one older than its flush. */
  ghost predicate MarkOk(ch: Versions, i: nat, flushes: set<nat>)
    requires i < |ch|
  {
    var m := ch[i].collected;
    m != 0 ==> m in flushes && i == FirstOld(ch, 0, m)
  }

  ghost predicate MarksOk(ch: Versions, flushes: set<nat>) {
    forall i :: 0 <= i < |ch| ==> MarkOk(ch, i, flushes)
  }

  ghost predicate Claimed(ch: Versions, m: nat) {
    var i := FirstOld(ch, 0, m);
    i < |ch| ==> ch[i].collected != 0
  }

  ghost predicate Holds(n: Node, e: Entry) {
    n.stamp == Stamp.Commit(e.ver) && n.record == e.record
  }

  /** Whatever `m` claimed in this chain is the entry given. */
  ghost predicate MarkedIn(ch: Versions, m: nat, e: Option<Entry>) {
    forall i :: 0 <= i < |ch| && ch[i].collected == m ==> e.Some? && Holds(ch[i], e.value)
  }

  ghost predicate EntryOk(h: map<nat, Version>, e: Entry, m: nat) {
    e.ver < m && e.ver in h && e.record == h[e.ver].record
  }

  ghost predicate EntryMarked(ch: Versions, m: nat, e: Entry) {
    exists i :: 0 <= i < |ch| && ch[i].collected == m && Holds(ch[i], e)
  }

  ghost predicate VisitOk(ch: Versions, h: map<nat, Version>, m: nat, visit: Visit, resumed: bool, top: Option<nat>) {
    && (!visit.todo ==> Claimed(ch, m))
    && (!resumed ==> MarkedIn(ch, m, visit.entry))
    && (visit.entry.Some? ==>
          && EntryOk(h, visit.entry.value, m)
          && EntryMarked(ch, m, visit.entry.value)
          && (top.Some? ==> top.value <= visit.entry.value.ver))
  }

  ghost predicate VisitsOk(ch: Versions, h: map<nat, Version>, visits: map<nat, Visit>, sealed: set<nat>, top: Option<nat>) {
    forall m :: m in visits ==> VisitOk(ch, h, m, visits[m], m in sealed, top)
  }

  ghost predicate SealedOk(ch: Versions, sealed: set<nat>) {
    forall m :: m in sealed ==> Claimed(ch, m)
  }

  ghost predicate PublishedOk(ch: Versions, published: set<nat>, imm: map<nat, Entry>) {
    forall m :: m in published ==> MarkedIn(ch, m, if m in imm then Some(imm[m]) else None)
  }

  ghost predicate CollectInv(v: View) {
    && MarksOk(v.ch, v.sealed + v.visits.Keys)
    && VisitsOk(v.ch, v.h, v.visits, v.sealed, v.top)
    && SealedOk(v.ch, v.sealed)
    && PublishedOk(v.ch, v.published, v.imm)
  }

  // ----- tables -----

  ghost predicate ImmEntryOk(h: map<nat, Version>, e: Entry, m: nat, sst: Option<Entry>, top: Option<nat>) {
    && EntryOk(h, e, m)
    && top.Some? && e.ver <= top.value
    && (sst.Some? ==> sst.value.ver <= e.ver)
  }

  ghost predicate ImmOk(h: map<nat, Version>, imm: map<nat, Entry>, sst: Option<Entry>, top: Option<nat>) {
    && (forall m :: m in imm ==> ImmEntryOk(h, imm[m], m, sst, top))
    && (forall m, m' :: m in imm && m' in imm && m < m' ==> imm[m].ver <= imm[m'].ver)
  }

  ghost predicate SstOk(h: map<nat, Version>, sst: Option<Entry>, top: Option<nat>) {
    sst.Some? ==>
      && sst.value.record.Some?
      && top.Some? && sst.value.ver <= top.value
      && sst.value.ver in h && sst.value.record == h[sst.value.ver].record
  }

  /** The newest immutable table that has the key holds its newest published version. */
  ghost predicate TopInImm(imm: map<nat, Entry>, top: nat, m: nat) {
    m in imm && imm[m].ver == top && forall m' :: m' in imm ==> m' <= m
  }

  ghost predicate TopOk(h: map<nat, Version>, imm: map<nat, Entry>, sst: Option<Entry>, top: Option<nat>, lastPub: nat) {
    if top.None? then imm == map[]
    else
      && top.value in h && top.value < lastPub
      && if imm == map[]
         then h[top.value].record.Some? ==> sst.Some? && sst.value.ver == top.value
         else exists m :: TopInImm(imm, top.value, m)
  }

  ghost predicate TableInv(v: View) {
    && ImmOk(v.h, v.imm, v.sst, v.top)
    && SstOk(v.h, v.sst, v.top)
    && TopOk(v.h, v.imm, v.sst, v.top, v.lastPub)
    && v.imm.Keys <= v.published
  }

  ghost predicate KeyInv(v: View) {
    ChainInv(v) && CollectInv(v) && TableInv(v)
  }

  // ----- the whole -----

  ghost predicate TxnInv(w: World) {
    && w.db.counter == w.spec.counter >= 1
    && (forall s :: s in w.db.xips <==> SpecActive(w.spec, s))
    && (forall s :: s in w.spec.txns ==> 1 <= s < w.db.counter)
    && (forall s :: SpecActive(w.spec, s) ==> w.spec.txns[s].writes.Keys == RedoOf(w.db, s))
    && (forall s :: s in w.db.redo ==> s in w.spec.txns && !w.spec.txns[s].phase.Committed?)
  }

  /** A flush timestamp in use: no running transaction started before it. */
  ghost predicate FlushTs(d: Db, m: nat) {
    1 <= m < d.counter && m < U32 && forall s :: s in d.xips ==> m <= s
  }

  ghost predicate FlushInv(w: World) {
    && (forall m :: m in w.sealed ==> FlushTs(w.db, m))
    && (forall m :: m in w.db.collecting ==> FlushTs(w.db, m) && w.lastPub <= m)
    && (forall m :: m in w.db.collecting && m in w.sealed ==> w.db.collecting[m].table == map[])
    && (forall m :: m in w.db.imm ==> w.db.minXip < m <= w.lastPub && m in w.sealed)
    && w.db.minXip <= w.lastPub && (w.lastPub == w.db.minXip || w.lastPub in w.db.imm)
    && (w.lastPub == 0 || w.lastPub in w.sealed)
    && w.db.writeBufferSize >= 2
  }

  ghost predicate Inv(w: World) {
    && TxnInv(w)
    && FlushInv(w)
    && forall k :: KeyInv(ViewOf(w, k))
  }
}

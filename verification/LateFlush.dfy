/** Flushes that register late, under the guard that the program has: the timestamp is one that no running
    transaction precedes and that no collecting flush has. What has been published meanwhile is not looked at.
    When such a flush can take `min_xip` back is decided when it registers. */
module LateFlush {
  import opened Options
  import opened Chain
  import opened Protocol
  import opened Invariant
  import opened ViewSteps
  import opened Preservation
  import opened Runs
  import opened Theorems

  // ----- the program's guard -----

  predicate Takes(d: Db, e: Event) {
    match e
    case Register(m) => Low(d, m) && m !in d.collecting
    case _ => Enabled(d, e)
  }

  function After(w: World, e: Event): World
    requires Takes(w.db, e)
  {
    match e
    case Register(m) => w.(db := RegisterDb(w.db, m))
    case _ => Step(w, e)
  }

  predicate LooseRun(w: World, es: seq<Event>)
    decreases |es|
  {
    es == [] || (Takes(w.db, es[0]) && LooseRun(After(w, es[0]), es[1..]))
  }

  function LooseExec(w: World, es: seq<Event>): World
    requires LooseRun(w, es)
    decreases |es|
  {
    if es == [] then w else LooseExec(After(w, es[0]), es[1..])
  }

  lemma {:induction false} LooseConcat(w: World, es: seq<Event>, es': seq<Event>)
    requires LooseRun(w, es) && LooseRun(LooseExec(w, es), es')
    ensures LooseRun(w, es + es') && LooseExec(w, es + es') == LooseExec(LooseExec(w, es), es')
    decreases |es|
  {
    if es == [] {
      assert es + es' == es';
    } else {
      assert (es + es')[1..] == es[1..] + es' && (es + es')[0] == es[0];
      LooseConcat(After(w, es[0]), es[1..], es');
    }
  }

  // ----- what a flush can still collect -----

  /** The keys with a version that a flush at `m` would claim. */
  function CollectableKeys(d: Db, m: nat): set<Key> {
    set k | k in d.mem && Collectable(d.mem[k], m)
  }

  /** What the flush has collected, and what it may yet collect. */
  function Within(d: Db, m: nat): set<Key> {
    CollectableKeys(d, m) + if m in d.collecting then d.collecting[m].table.Keys else {}
  }

  lemma InWithin(d: Db, m: nat, k: Key)
    ensures k in CollectableKeys(d, m) <==> Collectable(ChainOf(d, k), m)
  {
  }

  /** Timestamps in use fit the claim. */
  ghost predicate Sane(d: Db) {
    forall m :: m in d.collecting ==> 0 < m < U32
  }

  lemma ClaimedStays(ch: Versions, m: nat, m': nat)
    requires Collectable(ch, m') && 0 < m' < U32 && Collectable(Mark(ch, m'), m)
    ensures Collectable(ch, m)
  {
    FirstOldMark(ch, m', m);
  }

  /** No step gives a flush something to claim that it would not have claimed before. */
  lemma ClaimsShrink(d: Db, e: Event, k: Key, m: nat)
    requires Enabled(d, e) && Sane(d) && m < d.counter && Collectable(ChainAfter(d, e, k), m)
    ensures Collectable(ChainOf(d, k), m)
  {
    var ch := ChainOf(d, k);
    match e
    case WriteKey(s, k', rec) => FirstOldPush(ch, s, rec, m);
    case CommitTxn(s) => FirstOldStamp(ch, s, d.counter, m);
    case RollbackKey(s, k') => FirstOldUnwind(ch, s, m);
    case SnapshotKey(m', k') => if k' == k && Collectable(ch, m') { ClaimedStays(ch, m, m'); }
    case GcKey(m', k') => if k' == k && ch != [] && !Removable(ch, m') { FirstOldCut(ch, |Truncate(ch, m')|, m); }
    case _ =>
  }

  /** What a flush has collected grows only by what it could collect. */
  lemma TableGrows(d: Db, e: Event, m: nat, k: Key)
    requires Enabled(d, e) && !e.Register?
    requires m in Apply(d, e).collecting && k in Apply(d, e).collecting[m].table
    ensures m in d.collecting && (k in d.collecting[m].table || Collectable(ChainOf(d, k), m))
  {
  }

  lemma WithinShrinks(w: World, e: Event, m: nat)
    requires Takes(w.db, e) && Sane(w.db) && m < w.db.counter && e != Register(m)
    ensures Within(After(w, e).db, m) <= Within(w.db, m)
  {
    hide ChainAfter, Collectable;
    if !e.Register? {
      forall k | k in Within(After(w, e).db, m) ensures k in Within(w.db, m) {
        InWithin(w.db, m, k);
        if k in CollectableKeys(After(w, e).db, m) {
          InWithin(After(w, e).db, m, k);
          ChainSteps(w.db, e, k);
          ClaimsShrink(w.db, e, k, m);
        } else {
          TableGrows(w.db, e, m, k);
        }
      }
    }
  }

  lemma SaneStep(w: World, e: Event)
    requires Takes(w.db, e) && Sane(w.db)
    ensures Sane(After(w, e).db) && After(w, e).db.counter >= w.db.counter
    ensures After(w, e).db.writeBufferSize == w.db.writeBufferSize
  {
  }

  // ----- a flush that would take `min_xip` back -----

  /** The version set's assertion fails: a flush is to be installed after a younger one. */
  predicate GoesBack(d: Db, m: nat) {
    Enabled(d, Install(m)) && m < d.minXip
  }

  /** What holds of flush `m` from its registration on, when it could then collect the keys `all`: it publishes
      only with enough of these, and is behind only if it was passed before. */
  ghost predicate Track(d: Db, m: nat, all: set<Key>, passed: bool) {
    && Sane(d) && m < d.counter && Within(d, m) <= all
    && (m in d.imm && m < d.minXip ==> |all| >= d.writeBufferSize / 2)
    && (!passed ==> (m in d.collecting ==> Unpassed(d, m)) && (m in d.imm ==> d.minXip <= m))
  }

  lemma PublishTracks(d: Db, m: nat, all: set<Key>)
    requires Within(d, m) <= all && Enabled(d, Publish(m))
    ensures |all| >= d.writeBufferSize / 2
  {
    var t := d.collecting[m].table;
    Subset(t.Keys, all);
    assert |t.Keys| == |t|;
  }

  lemma {:induction false} Subset(a: set<Key>, b: set<Key>)
    requires a <= b
    ensures |a| <= |b|
  {
    assert b == a + (b - a);
  }

  /** Steps that neither publish nor install leave the tables, and only a registration adds a flush. */
  lemma TablesStay(w: World, e: Event, m: nat)
    requires Takes(w.db, e) && !e.Publish? && !e.Install? && e != Register(m)
    ensures
      var d, d' := w.db, After(w, e).db;
      d'.imm == d.imm && d'.minXip == d.minXip && (m in d'.collecting ==> m in d.collecting)
  {
  }

  lemma TrackStep(w: World, e: Event, m: nat, all: set<Key>, passed: bool)
    requires Takes(w.db, e) && Track(w.db, m, all, passed) && e != Register(m)
    ensures Track(After(w, e).db, m, all, passed)
  {
    hide Within, CollectableKeys, Sane, LiveEntries, Raise, NoteLive, SpecApply;
    WithinShrinks(w, e, m);
    SaneStep(w, e);
    if !e.Publish? && !e.Install? {
      hide Takes, After, Enabled;
      TablesStay(w, e, m);
    } else if e == Publish(m) {
      PublishTracks(w.db, m, all);
    }
  }

  lemma {:induction false} TrackRun(w: World, es: seq<Event>, m: nat, all: set<Key>, passed: bool)
    requires LooseRun(w, es) && Track(w.db, m, all, passed) && Register(m) !in es
    ensures Track(LooseExec(w, es).db, m, all, passed)
    ensures LooseExec(w, es).db.writeBufferSize == w.db.writeBufferSize
    decreases |es|
  {
    if es != [] {
      hide Track;
      assert es[0] in es && forall e :: e in es[1..] ==> e in es;
      TrackStep(w, es[0], m, all, passed);
      assert Sane(w.db) by { RevealTrack(w.db, m, all, passed); }
      SaneStep(w, es[0]);
      TrackRun(After(w, es[0]), es[1..], m, all, passed);
    }
  }

  lemma RevealTrack(d: Db, m: nat, all: set<Key>, passed: bool)
    requires Track(d, m, all, passed)
    ensures Sane(d)
  {
  }

  // ----- a run that gets there -----

  /** All of a flush's visits. */
  lemma {:induction false} CollectAll(w: World, m: nat, todo: set<Key>) returns (es: seq<Event>, t: Table)
    requires m in w.db.collecting && w.db.collecting[m].todo == todo && todo <= w.db.mem.Keys
    ensures LooseRun(w, es) && forall e :: e in es ==> e.SnapshotKey?
    ensures
      var d, d' := w.db, LooseExec(w, es).db;
      && d' == d.(mem := d'.mem, collecting := d.collecting[m := Flush({}, t)]) && d'.mem.Keys == d.mem.Keys
      && w.db.collecting[m].table.Keys <= t.Keys
      && (forall k :: k in todo && Collectable(w.db.mem[k], m) ==> k in t)
    decreases todo
  {
    if todo == {} {
      return [], w.db.collecting[m].table;
    }
    HasElement(todo);
    var k :| k in todo;
    var e := SnapshotKey(m, k);
    var w1 := After(w, e);
    VisitOne(w.db, m, k);
    var rest;
    rest, t := CollectAll(w1, m, todo - {k});
    es := [e] + rest;
    assert es[1..] == rest;
  }

  lemma VisitOne(d: Db, m: nat, k: Key)
    requires m in d.collecting && k in d.mem
    ensures
      var d' := SnapshotDb(d, m, k);
      && d' == d.(mem := d'.mem, collecting := d.collecting[m := d'.collecting[m]])
      && d'.mem.Keys == d.mem.Keys && (forall k' :: k' in d.mem && k' != k ==> d'.mem[k'] == d.mem[k'])
      && d'.collecting[m].todo == d.collecting[m].todo - {k}
      && d.collecting[m].table.Keys <= d'.collecting[m].table.Keys
      && (Collectable(d.mem[k], m) ==> k in d'.collecting[m].table)
  {
  }

  /** Installs all that is published. */
  lemma {:induction false} InstallAll(w: World, ms: set<nat>) returns (es: seq<Event>)
    requires w.db.imm.Keys == ms
    ensures LooseRun(w, es) && forall e :: e in es ==> e.Install?
    ensures
      var d, d' := w.db, LooseExec(w, es).db;
      && d' == d.(imm := map[], sst := d'.sst, minXip := d'.minXip)
      && (forall i :: i in d.imm ==> i <= d'.minXip) && (d.imm == map[] ==> d'.minXip == d.minXip)
    decreases ms
  {
    if ms == {} {
      assert w.db.imm == map[];
      return [];
    }
    var m := LeastOf(ms);
    var e := Install(m);
    var w1 := After(w, e);
    var rest := InstallAll(w1, ms - {m});
    if w1.db.imm != map[] {
      var x :| x in w1.db.imm;
      assert m <= x;
    }
    es := [e] + rest;
    assert es[1..] == rest;
    forall i | i in w.db.imm ensures i <= LooseExec(w, es).db.minXip {
      if i != m { assert i in w1.db.imm; }
    }
  }

  lemma {:induction false} LeastOf(ms: set<nat>) returns (m: nat)
    requires ms != {}
    ensures IsMin(m, ms)
  {
    var y :| y in ms;
    assert forall z :: z in ms ==> z in ms - {y} || z == y;
    m := y;
    if ms - {y} != {} {
      var x := LeastOf(ms - {y});
      m := if x < y then x else y;
    }
  }

  /** Some continuation, in which the timestamp is not registered once more, ends there. */
  ghost predicate CanGoBack(w: World, m: nat) {
    exists es :: LooseRun(w, es) && Register(m) !in es && GoesBack(LooseExec(w, es).db, m)
  }

  /** Once all else is installed, the passed flush publishes, and stands alone behind `min_xip`. */
  lemma PublishBehind(w: World, m: nat)
    requires m in w.db.collecting && w.db.collecting[m].todo == {} && w.db.imm == map[] && m < w.db.minXip
    requires |w.db.collecting[m].table.Keys| >= w.db.writeBufferSize / 2 && forall m' :: m' in w.db.collecting ==> m <= m'
    ensures LooseRun(w, [Publish(m)]) && GoesBack(LooseExec(w, [Publish(m)]).db, m)
  {
    OneRun(w, Publish(m)) by { CanPublish(w.db, m); }
    OnlyOne(w.db, m);
    hide Enabled, LooseRun, LooseExec;
    var w3 := After(w, Publish(m));
    assert w3.db == PublishDb(w.db, m);
  }

  lemma CanPublish(d: Db, m: nat)
    requires m in d.collecting && d.collecting[m].todo == {} && forall m' :: m' in d.collecting ==> m <= m'
    requires |d.collecting[m].table.Keys| >= d.writeBufferSize / 2
    ensures Enabled(d, Publish(m))
  {
    assert |d.collecting[m].table.Keys| == |d.collecting[m].table|;
  }

  lemma OnlyOne(d: Db, m: nat)
    requires m in d.collecting && d.imm == map[] && m < d.minXip
    ensures GoesBack(PublishDb(d, m), m)
  {
    assert PublishDb(d, m).imm.Keys == {m};
  }

  lemma OneRun(w: World, e: Event)
    requires Takes(w.db, e)
    ensures LooseRun(w, [e]) && LooseExec(w, [e]) == After(w, e)
  {
    assert [e][1..] == [];
  }

  /** Installing all that is published takes `min_xip` beyond a flush that has been passed. */
  lemma PassedBy(d: Db, m: nat, last: nat)
    requires !Unpassed(d, m) && forall i :: i in d.imm ==> d.minXip < i
    requires (forall i :: i in d.imm ==> i <= last) && (d.imm == map[] ==> last == d.minXip)
    ensures m < last
  {
    if d.imm != map[] { var i :| i in d.imm; }
  }

  lemma EnoughLeft(d: Db, m: nat, t: Table)
    requires |CollectableKeys(d, m)| >= d.writeBufferSize / 2
    requires forall k :: k in d.mem.Keys && Collectable(d.mem[k], m) ==> k in t
    ensures |t.Keys| >= d.writeBufferSize / 2
  {
    forall k | k in CollectableKeys(d, m) ensures k in t.Keys { assert k in d.mem.Keys; }
    Subset(CollectableKeys(d, m), t.Keys);
  }

  lemma TrackStart(w: World, m: nat)
    requires Low(w.db, m) && m !in w.db.collecting && Sane(w.db) && forall i :: i in w.db.imm ==> w.db.minXip < i
    ensures Track(After(w, Register(m)).db, m, CollectableKeys(w.db, m), !Unpassed(w.db, m))
  {
    assert CollectableKeys(RegisterDb(w.db, m), m) == CollectableKeys(w.db, m);
  }

  /** Only a flush that was passed before it registered, and that then could collect enough, gets there. */
  lemma OnlyIfPassed(w: World, m: nat)
    requires Low(w.db, m) && m !in w.db.collecting && Sane(w.db) && forall i :: i in w.db.imm ==> w.db.minXip < i
    requires CanGoBack(After(w, Register(m)), m)
    ensures !Unpassed(w.db, m) && |CollectableKeys(w.db, m)| >= w.db.writeBufferSize / 2
  {
    hide Unpassed, CollectableKeys, LooseRun, LooseExec, Low, Within, Sane;
    var w0 := After(w, Register(m));
    var es :| LooseRun(w0, es) && Register(m) !in es && GoesBack(LooseExec(w0, es).db, m);
    TrackStart(w, m);
    TrackRun(w0, es, m, CollectableKeys(w.db, m), !Unpassed(w.db, m));
  }

  // ----- installs along a run -----

  /** An install that can be done is above the last one. */
  ghost predicate InstallsAbove(d: Db) {
    forall m :: Enabled(d, Install(m)) ==> d.minXip < m
  }

  ghost predicate AlwaysAbove(w: World, es: seq<Event>)
    requires LooseRun(w, es)
    decreases |es|
  {
    InstallsAbove(w.db) && (es != [] ==> AlwaysAbove(After(w, es[0]), es[1..]))
  }

  ghost predicate PublishesAbove(w: World, es: seq<Event>)
    requires LooseRun(w, es)
    decreases |es|
  {
    es != [] ==> (es[0].Publish? ==> w.db.minXip < es[0].minXip) && PublishesAbove(After(w, es[0]), es[1..])
  }

  /** The least of the published flushes stands for all of them. */
  lemma AboveIs(d: Db)
    ensures InstallsAbove(d) <==> forall i :: i in d.imm ==> d.minXip < i
  {
    if InstallsAbove(d) && d.imm.Keys != {} {
      var m := LeastOf(d.imm.Keys);
      assert Enabled(d, Install(m));
    }
  }

  lemma PublishAbove(d: Db, m: nat)
    requires m in d.collecting && InstallsAbove(d)
    ensures InstallsAbove(PublishDb(d, m)) <==> d.minXip < m
  {
    AboveIs(d);
    AboveIs(PublishDb(d, m));
    assert m in PublishDb(d, m).imm;
    hide InstallsAbove;
  }

  lemma InstallAbove(d: Db, m: nat)
    requires Enabled(d, Install(m))
    ensures InstallsAbove(Apply(d, Install(m)))
  {
    AboveIs(Apply(d, Install(m)));
    hide InstallsAbove;
  }

  lemma AboveStep(w: World, e: Event)
    requires Takes(w.db, e) && InstallsAbove(w.db)
    ensures InstallsAbove(After(w, e).db) <==> (e.Publish? ==> w.db.minXip < e.minXip)
  {
    hide InstallsAbove, PublishDb, LiveEntries, Raise, NoteLive, SpecApply;
    match e
    case Publish(m) => PublishAbove(w.db, m);
    case Install(m) => InstallAbove(w.db, m);
    case _ =>
      TablesKept(w, e);
      AboveIs(w.db);
      AboveIs(After(w, e).db);
  }

  lemma TablesKept(w: World, e: Event)
    requires Takes(w.db, e) && !e.Publish? && !e.Install?
    ensures After(w, e).db.imm == w.db.imm && After(w, e).db.minXip == w.db.minXip
  {
  }

  /** Over any run at all, late flushes and what they publish included: flushes reach the version set in ascending
      order exactly when each publishes before a younger one has been installed. */
  lemma {:induction false} AscendIff(w: World, es: seq<Event>)
    requires LooseRun(w, es) && InstallsAbove(w.db)
    ensures AlwaysAbove(w, es) <==> PublishesAbove(w, es)
    decreases |es|
  {
    hide InstallsAbove, Takes, After;
    if es != [] {
      AboveStep(w, es[0]);
      if InstallsAbove(After(w, es[0]).db) { AscendIff(After(w, es[0]), es[1..]); } else { NotAlways(After(w, es[0]), es[1..]); }
    }
  }

  lemma NotAlways(w: World, es: seq<Event>)
    requires LooseRun(w, es) && !InstallsAbove(w.db)
    ensures !AlwaysAbove(w, es)
  {
  }
}

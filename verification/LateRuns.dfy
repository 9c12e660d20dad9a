/** Runs in which flushes may register late. As long as no flush publishes after a younger one, such a run is, but
    for the claims of the flushes that were passed, a run in which these never registered; so all that holds of
    the one holds of the other. Whether a passed flush can publish is decided when it registers. */
module LateRuns {
  import opened Options
  import opened Chain
  import opened Protocol
  import opened Invariant
  import opened ViewSteps
  import opened Preservation
  import opened Runs
  import opened Published
  import opened Theorems
  import opened LateFlush

  // ----- chains that differ in claims -----

  ghost predicate SameNode(a: Node, b: Node, late: set<nat>) {
    && a.stamp == b.stamp && a.record == b.record
    && (a.collected == b.collected || (b.collected == 0 && a.collected in late))
  }

  ghost predicate SameChain(a: Versions, b: Versions, late: set<nat>) {
    |a| == |b| && forall i :: 0 <= i < |a| ==> SameNode(a[i], b[i], late)
  }

  /** A late flush has claimed only the node that it would collect. */
  ghost predicate LateClaims(a: Versions, late: set<nat>) {
    forall i :: 0 <= i < |a| && a[i].collected in late ==> i == FirstOld(a, 0, a[i].collected)
  }

  /** The chain `a` is `b` with claims of late flushes. */
  ghost predicate Twin(a: Versions, b: Versions, late: set<nat>) {
    SameChain(a, b, late) && LateClaims(a, late)
  }

  lemma {:induction false} SameFirstOld(a: Versions, b: Versions, late: set<nat>, i: nat, m: nat)
    requires SameChain(a, b, late) && i <= |a|
    ensures FirstOld(a, i, m) == FirstOld(b, i, m)
    decreases |a| - i
  {
    if i < |a| {
      assert SameNode(a[i], b[i], late);
      if !Old(a[i], m) { SameFirstOld(a, b, late, i + 1, m); }
    }
  }

  lemma {:induction false} SameOwnRun(a: Versions, b: Versions, late: set<nat>, i: nat, s: nat)
    requires SameChain(a, b, late) && i <= |a|
    ensures OwnRun(a, i, s) == OwnRun(b, i, s)
    decreases |a| - i
  {
    if i < |a| {
      assert SameNode(a[i], b[i], late);
      if a[i].stamp == Uncommitted(s) { SameOwnRun(a, b, late, i + 1, s); }
    }
  }

  lemma {:induction false} SameFirstVisible(a: Versions, b: Versions, late: set<nat>, i: nat, s: nat)
    requires SameChain(a, b, late) && i <= |a|
    ensures FirstVisible(a, i, s) == FirstVisible(b, i, s)
    decreases |a| - i
  {
    if i < |a| {
      assert SameNode(a[i], b[i], late);
      if !Visible(a[i], s) { SameFirstVisible(a, b, late, i + 1, s); }
    }
  }

  /** Claims decide no read and no conflict. */
  lemma SameReads(a: Versions, b: Versions, late: set<nat>, s: nat)
    requires SameChain(a, b, late)
    ensures ChainValue(a, s) == ChainValue(b, s) && (Conflict(a, s) <==> Conflict(b, s))
  {
    SameFirstVisible(a, b, late, 0, s);
    var i := FirstVisible(a, 0, s);
    if i < |a| { assert SameNode(a[i], b[i], late); }
    if a != [] { assert SameNode(a[0], b[0], late); }
  }

  lemma TwinPush(a: Versions, b: Versions, late: set<nat>, s: nat, rec: Option<Value>)
    requires Twin(a, b, late) && 0 !in late
    ensures Twin(Push(a, s, rec), Push(b, s, rec), late)
  {
    var a', b' := Push(a, s, rec), Push(b, s, rec);
    forall i | 0 <= i < |a'|
      ensures SameNode(a'[i], b'[i], late) && (a'[i].collected in late ==> i == FirstOld(a', 0, a'[i].collected))
    {
      if i > 0 {
        assert SameNode(a[i - 1], b[i - 1], late);
        FirstOldPush(a, s, rec, a'[i].collected);
      }
    }
  }

  lemma TwinStamp(a: Versions, b: Versions, late: set<nat>, s: nat, c: nat)
    requires Twin(a, b, late) && forall m :: m in late ==> m <= c
    ensures Twin(StampAll(a, s, c), StampAll(b, s, c), late)
  {
    var a', b' := StampAll(a, s, c), StampAll(b, s, c);
    forall i | 0 <= i < |a'|
      ensures SameNode(a'[i], b'[i], late) && (a'[i].collected in late ==> i == FirstOld(a', 0, a'[i].collected))
    {
      assert SameNode(a[i], b[i], late);
      if a'[i].collected in late { FirstOldStamp(a, s, c, a'[i].collected); }
    }
  }

  lemma TwinUnwind(a: Versions, b: Versions, late: set<nat>, s: nat)
    requires Twin(a, b, late)
    ensures Twin(Unwind(a, s), Unwind(b, s), late)
  {
    SameOwnRun(a, b, late, 0, s);
    var a', b', n := Unwind(a, s), Unwind(b, s), OwnRun(a, 0, s);
    forall i | 0 <= i < |a'|
      ensures SameNode(a'[i], b'[i], late) && (a'[i].collected in late ==> i == FirstOld(a', 0, a'[i].collected))
    {
      assert SameNode(a[i + n], b[i + n], late);
      FirstOldUnwind(a, s, a'[i].collected);
    }
  }

  lemma TwinCut(a: Versions, b: Versions, late: set<nat>, j: nat)
    requires Twin(a, b, late) && j <= |a|
    ensures Twin(a[..j], b[..j], late)
  {
    forall i | 0 <= i < j
      ensures SameNode(a[..j][i], b[..j][i], late) && (a[i].collected in late ==> i == FirstOld(a[..j], 0, a[i].collected))
    {
      assert SameNode(a[i], b[i], late);
      FirstOldCut(a, j, a[i].collected);
    }
  }

  /** A flush that is not late removes the same from both. */
  lemma TwinGc(a: Versions, b: Versions, late: set<nat>, m: nat)
    requires Twin(a, b, late) && m !in late && m != 0 && a != []
    ensures Removable(a, m) <==> Removable(b, m)
    ensures Twin(Truncate(a, m), Truncate(b, m), late)
  {
    assert SameNode(a[0], b[0], late);
    var j := FirstOld(a, 1, m);
    SameFirstOld(a, b, late, 1, m);
    if j < |a| { assert SameNode(a[j], b[j], late); }
    TwinCut(a, b, late, j);
    TwinCut(a, b, late, |a|);
    assert a[..|a|] == a && b[..|b|] == b;
  }

  /** A node that both a late flush and a younger one would take has another claim. */
  lemma LateIsClaimed(a: Versions, b: Versions, late: set<nat>, m: nat, q: nat, x: nat)
    requires SameChain(a, b, late) && Claimed(b, q) && x <= q <= m
    requires FirstOld(a, 0, m) == FirstOld(a, 0, x) < |a|
    ensures b[FirstOld(a, 0, m)].collected != 0
  {
    SameFirstOld(a, b, late, 0, m);
    SameFirstOld(a, b, late, 0, x);
    FirstOldIs(b, q, FirstOld(b, 0, x));
  }

  /** A later flush finds its node claimed by no late one: between them a flush has claimed a newer node. */
  lemma TwinCollectable(a: Versions, b: Versions, late: set<nat>, m: nat, q: nat)
    requires Twin(a, b, late) && Claimed(b, q) && q <= m && forall x :: x in late ==> x <= q
    ensures Collectable(a, m) <==> Collectable(b, m)
  {
    var i := FirstOld(a, 0, m);
    SameFirstOld(a, b, late, 0, m);
    if i < |a| {
      assert SameNode(a[i], b[i], late);
      if a[i].collected in late { LateIsClaimed(a, b, late, m, q, a[i].collected); }
    }
  }

  lemma TwinMark(a: Versions, b: Versions, late: set<nat>, m: nat)
    requires Twin(a, b, late) && Collectable(a, m) && Collectable(b, m) && m % U32 !in late
    ensures Twin(Mark(a, m), Mark(b, m), late)
  {
    SameFirstOld(a, b, late, 0, m);
    var a', b' := Mark(a, m), Mark(b, m);
    forall i | 0 <= i < |a'|
      ensures SameNode(a'[i], b'[i], late) && (a'[i].collected in late ==> i == FirstOld(a', 0, a'[i].collected))
    {
      assert SameNode(a[i], b[i], late);
      FirstOldMark(a, m, a'[i].collected);
    }
  }

  /** The claim of a late flush. */
  lemma TwinLateMark(a: Versions, b: Versions, late: set<nat>, m: nat)
    requires Twin(a, b, late) && Collectable(a, m) && m in late && m < U32 && 0 !in late
    ensures Twin(Mark(a, m), b, late)
  {
    var a' := Mark(a, m);
    forall i | 0 <= i < |a'|
      ensures SameNode(a'[i], b[i], late) && (a'[i].collected in late ==> i == FirstOld(a', 0, a'[i].collected))
    {
      assert SameNode(a[i], b[i], late);
      FirstOldMark(a, m, a'[i].collected);
    }
  }

  /** Under a timestamp whose snapshot once ran to its end a late flush finds nothing. */
  lemma TwinSealed(a: Versions, b: Versions, late: set<nat>, m: nat)
    requires Twin(a, b, late) && Claimed(b, m)
    ensures !Collectable(a, m)
  {
    SameFirstOld(a, b, late, 0, m);
    var i := FirstOld(a, 0, m);
    if i < |a| { assert SameNode(a[i], b[i], late); }
  }

  // ----- states that differ in late flushes -----

  ghost predicate SameRest(a: Db, b: Db) {
    && a.counter == b.counter && a.xips == b.xips && a.redo == b.redo
    && a.imm == b.imm && a.sst == b.sst && a.minXip == b.minXip && a.writeBufferSize == b.writeBufferSize
  }

  /** The state `a` is `b` with late flushes and some claims of theirs. */
  ghost predicate TwinDb(a: Db, b: Db, late: set<nat>, claims: set<nat>) {
    && SameRest(a, b) && a.mem.Keys == b.mem.Keys
    && (forall k :: Twin(ChainOf(a, k), ChainOf(b, k), claims))
    && b.collecting == a.collecting - late
  }

  /** The flush's step is one of those that change nothing but its own work. */
  predicate Own(e: Event, late: set<nat>) {
    match e
    case Register(m) => m in late
    case SnapshotKey(m, _) => m in late
    case Cancel(m) => m in late
    case Publish(m) => m in late
    case _ => false
  }

  /** What the guards need of claims and of the flush that published last, `q`. */
  ghost predicate ClaimsOk(b: Db, claims: set<nat>, q: nat) {
    && 0 !in claims && (forall m :: m in claims ==> m < q && m < b.counter)
    && (forall k :: Claimed(ChainOf(b, k), q))
    && (forall m :: m in b.collecting ==> q <= m < U32)
    && (forall m :: m in b.imm ==> m !in claims && m != 0)
  }

  lemma EnabledToo(a: Db, b: Db, late: set<nat>, claims: set<nat>, e: Event)
    requires TwinDb(a, b, late, claims) && Enabled(a, e) && !Own(e, late)
    ensures Enabled(b, e)
  {
    match e
    case WriteKey(s, k, rec) =>
      assert Twin(ChainOf(a, k), ChainOf(b, k), claims);
      SameReads(ChainOf(a, k), ChainOf(b, k), claims, s);
      if ChainOf(a, k) != [] { assert SameNode(ChainOf(a, k)[0], ChainOf(b, k)[0], claims); }
    case _ =>
  }

  lemma WorkRest(d: Db, m: nat, k: Key)
    requires k in d.mem
    ensures m in d.collecting ==> SameRest(SnapshotDb(d, m, k), d)
    ensures SameRest(GcDb(d, m, k), d)
  {
  }

  lemma SameFlush(a: Db, b: Db, late: set<nat>, claims: set<nat>, m: nat)
    requires TwinDb(a, b, late, claims) && m in a.collecting && m !in late
    ensures m in b.collecting && b.collecting[m] == a.collecting[m]
  {
  }

  lemma PublishIn(d: Db, e: Event)
    requires Enabled(d, e) && e.Publish?
    ensures e.minXip in d.collecting
  {
  }

  lemma NotOwn(e: Event, late: set<nat>)
    requires !Own(e, late) && e.Publish?
    ensures e.minXip !in late
  {
  }

  lemma RestAfter(a: Db, b: Db, e: Event)
    requires SameRest(a, b) && Enabled(a, e) && Enabled(b, e)
    requires e.Publish? ==> a.collecting[e.minXip] == b.collecting[e.minXip]
    ensures SameRest(Apply(a, e), Apply(b, e))
  {
    hide SnapshotDb, GcDb, StampMem, Unwind, Push, Conflict, IsMin;
    match e
    case SnapshotKey(m, k) => WorkRest(a, m, k); WorkRest(b, m, k);
    case GcKey(m, k) => WorkRest(a, m, k); WorkRest(b, m, k);
    case _ =>
  }

  lemma TwinAfter(a: Db, b: Db, late: set<nat>, claims: set<nat>, q: nat, e: Event, k: Key)
    requires TwinDb(a, b, late, claims) && ClaimsOk(b, claims, q) && Enabled(a, e) && Enabled(b, e) && !Own(e, late)
    ensures Twin(ChainAfter(a, e, k), ChainAfter(b, e, k), claims)
  {
    var x, y := ChainOf(a, k), ChainOf(b, k);
    assert Twin(x, y, claims) && Claimed(y, q);
    match e
    case WriteKey(s, _, rec) => TwinPush(x, y, claims, s, rec);
    case CommitTxn(s) => TwinStamp(x, y, claims, s, a.counter);
    case RollbackKey(s, _) => TwinUnwind(x, y, claims, s);
    case SnapshotKey(m, k') =>
      TwinCollectable(x, y, claims, m, q);
      if Collectable(x, m) { TwinMark(x, y, claims, m); }
    case GcKey(m, k') => if x != [] { TwinGc(x, y, claims, m); }
    case _ =>
  }

  lemma KeysAfter(a: Db, b: Db, late: set<nat>, claims: set<nat>, q: nat, e: Event)
    requires TwinDb(a, b, late, claims) && ClaimsOk(b, claims, q) && Enabled(a, e) && Enabled(b, e) && !Own(e, late)
    ensures Apply(a, e).mem.Keys == Apply(b, e).mem.Keys
  {
    hide Twin, Mark, Truncate, Removable, Collectable, FirstOld, Unwind, Push, Own, IsMin, Conflict, LiveEntries;
    match e
    case GcKey(m, k) => SameRemoval(a, b, late, claims, q, m, k);
    case SnapshotKey(m, k) =>
    case _ =>
  }

  lemma SameRemoval(a: Db, b: Db, late: set<nat>, claims: set<nat>, q: nat, m: nat, k: Key)
    requires TwinDb(a, b, late, claims) && ClaimsOk(b, claims, q) && m in b.imm && k in b.mem
    ensures a.mem[k] == [] <==> b.mem[k] == []
    ensures a.mem[k] != [] ==> (Removable(a.mem[k], m) <==> Removable(b.mem[k], m))
  {
    assert Twin(ChainOf(a, k), ChainOf(b, k), claims);
    if ChainOf(a, k) != [] { TwinGc(ChainOf(a, k), ChainOf(b, k), claims, m); }
  }

  /** A flush that is not late takes the same from both. */
  lemma SameVisitToo(a: Db, b: Db, late: set<nat>, claims: set<nat>, q: nat, m: nat, k: Key)
    requires TwinDb(a, b, late, claims) && ClaimsOk(b, claims, q) && m in b.collecting && k in b.mem
    ensures
      var x, y, i := a.mem[k], b.mem[k], FirstOld(a.mem[k], 0, m);
      && (Collectable(x, m) <==> Collectable(y, m)) && FirstOld(y, 0, m) == i
      && (Collectable(x, m) ==> x[i].stamp == y[i].stamp && x[i].record == y[i].record)
  {
    var x, y := ChainOf(a, k), ChainOf(b, k);
    assert Twin(x, y, claims) && Claimed(y, q);
    TwinCollectable(x, y, claims, m, q);
    SameFirstOld(x, y, claims, 0, m);
    if Collectable(x, m) { assert SameNode(x[FirstOld(x, 0, m)], y[FirstOld(x, 0, m)], claims); }
  }

  lemma CollectingAfter(a: Db, b: Db, late: set<nat>, claims: set<nat>, q: nat, e: Event)
    requires TwinDb(a, b, late, claims) && ClaimsOk(b, claims, q) && Enabled(a, e) && Enabled(b, e) && !Own(e, late)
    ensures Apply(b, e).collecting == Apply(a, e).collecting - late
  {
    hide Twin, Mark, Truncate, Removable, Unwind, Push, IsMin, Conflict, LiveEntries, StampMem, Claimed;
    match e
    case GcKey(m, k) => SameRemoval(a, b, late, claims, q, m, k);
    case SnapshotKey(m, k) => SameVisitToo(a, b, late, claims, q, m, k);
    case _ => OtherCollecting(a, b, late, claims, e);
  }

  lemma OtherCollecting(a: Db, b: Db, late: set<nat>, claims: set<nat>, e: Event)
    requires TwinDb(a, b, late, claims) && Enabled(a, e) && Enabled(b, e) && !Own(e, late) && !e.GcKey? && !e.SnapshotKey?
    ensures Apply(b, e).collecting == Apply(a, e).collecting - late
  {
    hide Twin, Unwind, Push, IsMin, Conflict, LiveEntries, StampMem, ChainOf;
  }

  /** A step of anybody else is possible without the late flushes too, and leads to twins again. */
  lemma TwinStep(a: Db, b: Db, late: set<nat>, claims: set<nat>, q: nat, e: Event)
    requires TwinDb(a, b, late, claims) && ClaimsOk(b, claims, q) && Enabled(a, e) && !Own(e, late)
    ensures Enabled(b, e) && TwinDb(Apply(a, e), Apply(b, e), late, claims)
  {
    hide Enabled, Apply, Twin, SameRest, ChainAfter, ClaimsOk, Own;
    EnabledToo(a, b, late, claims, e);
    if e.Publish? { SameFlush(a, b, late, claims, e.minXip) by { NotOwn(e, late); PublishIn(a, e); } }
    RestAfter(a, b, e);
    KeysAfter(a, b, late, claims, q, e);
    CollectingAfter(a, b, late, claims, q, e);
    forall k ensures Twin(ChainOf(Apply(a, e), k), ChainOf(Apply(b, e), k), claims) {
      TwinAfter(a, b, late, claims, q, e, k);
      ChainSteps(a, e, k);
      ChainSteps(b, e, k);
    }
  }

  /** A visit by a late flush: what it claims nobody else will miss. */
  lemma LateVisit(a: Db, b: Db, late: set<nat>, claims: set<nat>, m: nat, k: Key)
    requires TwinDb(a, b, late, claims) && m in late && m in a.collecting && k in a.mem && m < U32 && 0 !in claims
    requires m in claims || Claimed(ChainOf(b, k), m)
    ensures TwinDb(SnapshotDb(a, m, k), b, late, claims)
  {
    hide Twin, Collectable, Mark;
    var a' := SnapshotDb(a, m, k);
    assert Twin(ChainOf(a, k), ChainOf(b, k), claims);
    if Collectable(ChainOf(a, k), m) {
      if m !in claims { TwinSealed(ChainOf(a, k), ChainOf(b, k), claims, m); }
      TwinLateMark(ChainOf(a, k), ChainOf(b, k), claims, m);
    }
    forall k' ensures Twin(ChainOf(a', k'), ChainOf(b, k'), claims) { assert Twin(ChainOf(a, k'), ChainOf(b, k'), claims); }
  }

  lemma TwinMore(a: Versions, b: Versions, claims: set<nat>, m: nat)
    requires Twin(a, b, claims) && (m !in claims ==> forall i :: 0 <= i < |b| ==> b[i].collected != m)
    ensures Twin(a, b, claims + {m})
  {
    forall i | 0 <= i < |a|
      ensures SameNode(a[i], b[i], claims + {m})
      ensures a[i].collected in claims + {m} ==> i == FirstOld(a, 0, a[i].collected)
    {
      assert SameNode(a[i], b[i], claims);
    }
  }

  /** One more late flush. */
  lemma LateRegister(a: Db, b: Db, late: set<nat>, claims: set<nat>, claims': set<nat>, m: nat)
    requires TwinDb(a, b, late, claims) && m !in b.collecting
    requires claims' == claims || claims' == claims + {m}
    requires m in claims' && m !in claims ==> forall k, i :: 0 <= i < |ChainOf(b, k)| ==> ChainOf(b, k)[i].collected != m
    ensures TwinDb(RegisterDb(a, m), b, late + {m}, claims')
  {
    hide Twin;
    var a' := RegisterDb(a, m);
    forall k ensures Twin(ChainOf(a', k), ChainOf(b, k), claims') {
      assert Twin(ChainOf(a, k), ChainOf(b, k), claims);
      if claims' != claims { TwinMore(ChainOf(a, k), ChainOf(b, k), claims, m); }
    }
  }

  // ----- runs -----

  /** The world `a` is `b` with late flushes. */
  ghost predicate Sim(a: World, b: World, late: set<nat>) {
    && Inv(b) && a.spec == b.spec && a.firstLive == b.firstLive && a.lastPub == b.lastPub
    && TwinDb(a.db, b.db, late, late - b.sealed)
    && forall m :: m in late ==> 0 < m < b.lastPub
  }

  lemma SimClaims(a: World, b: World, late: set<nat>)
    requires Sim(a, b, late)
    ensures ClaimsOk(b.db, late - b.sealed, b.lastPub)
    ensures Sane(a.db) && forall m :: m in late ==> m < a.db.counter && m < U32
  {
    if b.lastPub != 0 { assert FlushTs(b.db, b.lastPub); }
    forall k ensures Claimed(ChainOf(b.db, k), b.lastPub) {
      assert KeyInv(ViewOf(b, k));
      if b.lastPub != 0 { assert SealedOk(ChainOf(b.db, k), b.sealed); }
    }
    forall m | m in b.db.collecting ensures b.lastPub <= m < U32 { assert FlushTs(b.db, m); }
    forall m | m in a.db.collecting ensures 0 < m < U32 {
      if m !in late { assert m in b.db.collecting && FlushTs(b.db, m); }
    }
  }

  /** No flush publishes after a younger one has. */
  predicate Orderly(d: Db, e: Event) {
    e.Publish? ==> Unpassed(d, e.minXip)
  }

  predicate OrderlyRun(w: World, es: seq<Event>): (b: bool)
    ensures b ==> LooseRun(w, es)
    decreases |es|
  {
    es == [] || (Takes(w.db, es[0]) && Orderly(w.db, es[0]) && OrderlyRun(After(w, es[0]), es[1..]))
  }

  /** The late flushes after a step. */
  function LateAfter(d: Db, e: Event, late: set<nat>): set<nat> {
    if e.Register? && !Unpassed(d, e.minXip) then late + {e.minXip} else late
  }

  /** Who has been passed stays passed. */
  lemma LatePassed(a: World, b: World, late: set<nat>, m: nat)
    requires Sim(a, b, late)
    ensures !Unpassed(a.db, m) <==> m < b.lastPub
  {
  }

  lemma BothPublish(a: World, b: World, late: set<nat>, m: nat)
    requires Sim(a, b, late) && Enabled(a.db, Publish(m)) && Enabled(b.db, Publish(m)) && m !in late
    ensures a.db.collecting[m] == b.db.collecting[m] && m > b.lastPub && late - (b.sealed + {m}) == late - b.sealed
  {
    PublishOnce(b, m);
    SameFlush(a.db, b.db, late, late - b.sealed, m);
  }

  /** The bookkeeping of a step that both take. */
  lemma WorldAfter(a: World, b: World, late: set<nat>, e: Event)
    requires Sim(a, b, late) && Enabled(a.db, e) && Enabled(b.db, e) && !Own(e, late)
    ensures After(a, e).db == Apply(a.db, e) && Step(b, e).db == Apply(b.db, e)
    ensures After(a, e).spec == Step(b, e).spec && After(a, e).firstLive == Step(b, e).firstLive
    ensures After(a, e).lastPub == Step(b, e).lastPub && Step(b, e).lastPub >= b.lastPub
    ensures late - Step(b, e).sealed == late - b.sealed
  {
    if e.Publish? { BothPublish(a, b, late, e.minXip); }
    hide TwinDb, Apply, Enabled, Raise, NoteLive, Inv;
  }

  lemma SimOther(a: World, b: World, late: set<nat>, e: Event)
    requires Sim(a, b, late) && Enabled(a.db, e) && !Own(e, late)
    ensures Enabled(b.db, e) && Sim(After(a, e), Step(b, e), late)
  {
    hide TwinDb, Inv, Enabled, Step, After, ClaimsOk, Sane, Takes;
    SimClaims(a, b, late);
    TwinStep(a.db, b.db, late, late - b.sealed, b.lastPub, e);
    StepKeeps(b, e);
    WorldAfter(a, b, late, e);
    assert Takes(a.db, e) by { EnabledTakes(a.db, e); }
  }

  lemma EnabledTakes(d: Db, e: Event)
    requires Enabled(d, e)
    ensures Takes(d, e)
  {
  }

  lemma NoMarks(b: World, m: nat, k: Key)
    requires Inv(b) && m != 0 && m !in b.db.collecting && m !in b.sealed
    ensures forall i :: 0 <= i < |ChainOf(b.db, k)| ==> ChainOf(b.db, k)[i].collected != m
  {
    var v := ViewOf(b, k);
    assert KeyInv(v) && v.visits.Keys == b.db.collecting.Keys;
    forall i | 0 <= i < |v.ch| ensures v.ch[i].collected != m { assert MarkOk(v.ch, i, v.sealed + v.visits.Keys); }
  }

  /** A flush registers that has been passed. */
  lemma SimLateRegister(a: World, b: World, late: set<nat>, m: nat)
    requires Sim(a, b, late) && Takes(a.db, Register(m)) && !Unpassed(a.db, m)
    ensures Sim(After(a, Register(m)), b, late + {m})
  {
    hide Inv, TwinDb, Unpassed;
    LatePassed(a, b, late, m);
    var claims, claims' := late - b.sealed, late + {m} - b.sealed;
    assert m !in b.db.collecting by { NotCollecting(a, b, late, m); }
    forall k, i | m in claims' && m !in claims && 0 <= i < |ChainOf(b.db, k)| ensures ChainOf(b.db, k)[i].collected != m {
      NoMarks(b, m, k);
    }
    assert claims' == claims || claims' == claims + {m};
    LateRegister(a.db, b.db, late, claims, claims', m);
  }

  lemma NotCollecting(a: World, b: World, late: set<nat>, m: nat)
    requires Sim(a, b, late) && m !in a.db.collecting
    ensures m !in b.db.collecting
  {
  }

  lemma SimLateVisit(a: World, b: World, late: set<nat>, m: nat, k: Key)
    requires Sim(a, b, late) && m in late && Enabled(a.db, SnapshotKey(m, k))
    ensures Sim(After(a, SnapshotKey(m, k)), b, late)
  {
    SimClaims(a, b, late);
    if m in b.sealed { assert KeyInv(ViewOf(b, k)) && SealedOk(ChainOf(b.db, k), b.sealed); }
    hide Inv, TwinDb, SnapshotDb;
    LateVisit(a.db, b.db, late, late - b.sealed, m, k);
  }

  lemma SimLateCancel(a: World, b: World, late: set<nat>, m: nat)
    requires Sim(a, b, late) && m in late && Enabled(a.db, Cancel(m))
    ensures Sim(After(a, Cancel(m)), b, late)
  {
    hide Inv, Twin;
    var a' := After(a, Cancel(m));
    assert a.db.collecting - late == a'.db.collecting - late;
    forall k ensures Twin(ChainOf(a'.db, k), ChainOf(b.db, k), late - b.sealed) {
      assert Twin(ChainOf(a.db, k), ChainOf(b.db, k), late - b.sealed);
    }
  }

  lemma SimOwn(a: World, b: World, late: set<nat>, e: Event)
    requires Sim(a, b, late) && Takes(a.db, e) && Orderly(a.db, e) && Own(e, LateAfter(a.db, e, late))
    ensures Sim(After(a, e), b, LateAfter(a.db, e, late))
  {
    hide Sim, Enabled, After, Unpassed;
    match e
    case Register(m) =>
      assert !Unpassed(a.db, m) by { LateIsPassed(a, b, late, m); }
      SimLateRegister(a, b, late, m);
    case SnapshotKey(m, k) => SimLateVisit(a, b, late, m, k);
    case Cancel(m) => SimLateCancel(a, b, late, m);
    case Publish(m) => LateIsPassed(a, b, late, m);
  }

  lemma LateIsPassed(a: World, b: World, late: set<nat>, m: nat)
    requires Sim(a, b, late) && (m in late || m in LateAfter(a.db, Register(m), late))
    ensures !Unpassed(a.db, m)
  {
    LatePassed(a, b, late, m);
  }

  /** An orderly step is one of the protocol, or none, for the twin. */
  lemma SimStep(a: World, b: World, late: set<nat>, e: Event) returns (es: seq<Event>)
    requires Sim(a, b, late) && Takes(a.db, e) && Orderly(a.db, e)
    ensures es == [] || es == [e]
    ensures ValidRun(b, es) && Sim(After(a, e), Exec(b, es), LateAfter(a.db, e, late))
  {
    hide Sim, Enabled, After, Unpassed, Step;
    if Own(e, LateAfter(a.db, e, late)) {
      SimOwn(a, b, late, e);
      es := [];
    } else {
      assert LateAfter(a.db, e, late) == late && Enabled(a.db, e) by { TakesProperly(a.db, e, late); }
      SimOther(a, b, late, e);
      es := [e];
      assert es[1..] == [];
    }
  }

  lemma TakesProperly(d: Db, e: Event, late: set<nat>)
    requires Takes(d, e) && !Own(e, LateAfter(d, e, late))
    ensures LateAfter(d, e, late) == late && Enabled(d, e)
  {
  }

  /** A run in which no flush publishes after a younger one is, without the flushes that were passed, a run of the
      protocol. */
  lemma {:induction false} SimRun(a: World, b: World, late: set<nat>, es: seq<Event>) returns (es': seq<Event>, late': set<nat>)
    requires Sim(a, b, late) && OrderlyRun(a, es)
    ensures LooseRun(a, es) && ValidRun(b, es') && Sim(LooseExec(a, es), Exec(b, es'), late')
    ensures forall e :: e in es' ==> e in es
    decreases |es|
  {
    hide Sim, Takes, After, Enabled, Step, Orderly;
    if es == [] { return [], late; }
    var first := SimStep(a, b, late, es[0]);
    var rest;
    rest, late' := SimRun(After(a, es[0]), Exec(b, first), LateAfter(a.db, es[0], late), es[1..]);
    es' := first + rest;
    RunJoined(b, first, rest);
  }

  lemma RunJoined(w: World, first: seq<Event>, rest: seq<Event>)
    requires |first| <= 1 && ValidRun(w, first) && ValidRun(Exec(w, first), rest)
    ensures ValidRun(w, first + rest) && Exec(w, first + rest) == Exec(Exec(w, first), rest)
  {
    if first == [] {
      assert first + rest == rest;
    } else {
      assert (first + rest)[1..] == rest && (first + rest)[0] == first[0] && first[1..] == [];
      assert Exec(w, first) == Exec(Step(w, first[0]), []);
    }
  }

  /** What the program reaches when no flush publishes after a younger one. */
  ghost predicate LateReachable(w: World) {
    exists buf: nat, es :: buf >= 2 && OrderlyRun(InitWorld(buf), es) && LooseExec(InitWorld(buf), es) == w
  }

  /** It has a twin that the protocol reaches. */
  lemma HasTwin(w: World) returns (b: World, late: set<nat>)
    requires LateReachable(w)
    ensures Reachable(b) && Sim(w, b, late)
  {
    hide Sim, OrderlyRun;
    var buf: nat, es :| buf >= 2 && OrderlyRun(InitWorld(buf), es) && LooseExec(InitWorld(buf), es) == w;
    assert Sim(InitWorld(buf), InitWorld(buf), {}) by { SimStart(buf); }
    var es';
    es', late := SimRun(InitWorld(buf), InitWorld(buf), {}, es);
    b := Exec(InitWorld(buf), es');
  }

  lemma SimStart(buf: nat)
    requires buf >= 2
    ensures Sim(InitWorld(buf), InitWorld(buf), {})
  {
    InitInv(buf);
    assert InitWorld(buf).db.collecting - {} == InitWorld(buf).db.collecting;
  }

  // ----- what such runs keep -----

  lemma IdleSome(s: nat, es: seq<Event>, es': seq<Event>)
    requires Idle(s, es) && forall e :: e in es' ==> e in es
    ensures Idle(s, es')
  {
    forall i | 0 <= i < |es'|
      ensures match es'[i]
        case WriteKey(s', _, _) => s' != s
        case CommitTxn(s') => s' != s
        case AbortTxn(s') => s' != s
        case _ => true
    {
      assert es'[i] in es;
      var j :| 0 <= j < |es| && es[j] == es'[i];
    }
  }

  lemma TwinReads(a1: World, b1: World, l1: set<nat>, a2: World, b2: World, l2: set<nat>, a3: World, b3: World, l3: set<nat>, s: nat, k: Key)
    requires Sim(a1, b1, l1) && Sim(a2, b2, l2) && Sim(a3, b3, l3)
    ensures LayeredRead(a1.db, a2.db, a3.db, s, k) == LayeredRead(b1.db, b2.db, b3.db, s, k)
    ensures a1.spec == b1.spec && a1.db.xips == b1.db.xips
    ensures Surfaces(a2, a3, k) <==> Surfaces(b2, b3, k)
  {
    assert Twin(ChainOf(a1.db, k), ChainOf(b1.db, k), l1 - b1.sealed);
    SameReads(ChainOf(a1.db, k), ChainOf(b1.db, k), l1 - b1.sealed, s);
  }

  /** The snapshot read holds in runs with late flushes too, as long as none publishes after a younger one. */
  lemma LateSnapshotRead(w1: World, es: seq<Event>, es': seq<Event>, s: nat, k: Key)
    requires LateReachable(w1) && s in w1.db.xips && Idle(s, es) && Idle(s, es')
    requires OrderlyRun(w1, es) && OrderlyRun(LooseExec(w1, es), es')
    ensures
      var w2, w3 := LooseExec(w1, es), LooseExec(LooseExec(w1, es), es');
      var read := LayeredRead(w1.db, w2.db, w3.db, s, k);
      && s in w1.spec.txns
      && (read == SpecRead(w1.spec, s, k) <==> SpecRead(w1.spec, s, k).Some? || !Surfaces(w2, w3, k))
      && (NeverDeleted(w1.spec, s, k) ==> read == SpecRead(w1.spec, s, k))
  {
    hide Sim, OrderlyRun, LooseRun, LooseExec, Idle, LayeredRead, SpecRead, Surfaces, Reachable, LateReachable, NeverDeleted, ValidRun, Exec;
    var w2 := LooseExec(w1, es);
    var b1, l1 := HasTwin(w1);
    var fs, l2 := SimRun(w1, b1, l1, es);
    var b2 := Exec(b1, fs);
    var fs', l3 := SimRun(w2, b2, l2, es');
    IdleSome(s, es, fs);
    IdleSome(s, es', fs');
    TwinReads(w1, b1, l1, w2, b2, l2, LooseExec(w2, es'), Exec(b2, fs'), l3, s, k);
    SnapshotRead(b1, fs, fs', s, k);
  }

  /** And flushes reach the version set in ascending order. */
  lemma LateInstallsAscend(w: World, m: nat)
    requires LateReachable(w) && Enabled(w.db, Install(m))
    ensures m > w.db.minXip
  {
    var b, late := HasTwin(w);
    InstallsAscend(b, m);
  }

  // ----- when a passed flush can publish -----

  /** A late flush that is collecting has too little to publish, with all that it may still find. */
  ghost predicate Small(d: Db, m: nat) {
    m in d.collecting ==> |Within(d, m)| < d.writeBufferSize / 2 && d.collecting[m].todo <= d.mem.Keys
  }

  lemma SmallStart(d: Db, m: nat)
    requires |CollectableKeys(d, m)| < d.writeBufferSize / 2
    ensures Small(RegisterDb(d, m), m)
  {
    assert Within(RegisterDb(d, m), m) == CollectableKeys(d, m);
  }

  /** Small flushes stay small. */
  lemma SmallStep(a: World, e: Event, m: nat)
    requires Takes(a.db, e) && Sane(a.db) && m < a.db.counter && Small(a.db, m) && e != Register(m)
    ensures Small(After(a, e).db, m)
  {
    hide Within;
    WithinShrinks(a, e, m);
    SaneStep(a, e);
    if m in After(a, e).db.collecting {
      TodoStays(a.db, e, m);
      Subset(Within(After(a, e).db, m), Within(a.db, m));
    }
  }

  lemma TodoStays(d: Db, e: Event, m: nat)
    requires Takes(d, e) && e != Register(m) && (m in d.collecting ==> d.collecting[m].todo <= d.mem.Keys)
    ensures
      var d' := if e.Register? then RegisterDb(d, e.minXip) else Apply(d, e);
      m in d'.collecting ==> m in d.collecting && d'.collecting[m].todo <= d'.mem.Keys
  {
    match e
    case SnapshotKey(m', k) =>
    case GcKey(m', k) =>
    case _ =>
  }


  /** What a late flush may find gets no more while others take their steps. */
  lemma {:induction false} SmallRun(a: World, es: seq<Event>, m: nat)
    requires LooseRun(a, es) && Sane(a.db) && m < a.db.counter && Small(a.db, m) && Register(m) !in es
    ensures Small(LooseExec(a, es).db, m)
    decreases |es|
  {
    hide Takes, After, Small, Sane;
    if es != [] {
      assert es[0] in es && forall e :: e in es[1..] ==> e in es;
      SmallStep(a, es[0], m);
      SaneStep(a, es[0]);
      SmallRun(After(a, es[0]), es[1..], m);
    }
  }

  /** Flushes that find too little go through their visits and give up. */
  lemma {:induction false} CancelAll(w: World, ms: set<nat>) returns (es: seq<Event>)
    requires ms <= w.db.collecting.Keys && Sane(w.db) && forall m :: m in ms ==> m < w.db.counter && Small(w.db, m)
    ensures LooseRun(w, es) && forall e :: e in es ==> !e.Register?
    ensures
      var d, d' := w.db, LooseExec(w, es).db;
      d' == d.(mem := d'.mem, collecting := d.collecting - ms)
    decreases ms
  {
    hide LooseRun, LooseExec, Small, Within;
    if ms == {} {
      assert LooseRun(w, []) && LooseExec(w, []) == w by { NothingTaken(w); }
      assert w.db.collecting - {} == w.db.collecting;
      return [];
    }
    var m :| m in ms;
    var visits := CancelOne(w, m);
    var w1 := LooseExec(w, visits);
    forall x | x in ms - {m} ensures Small(w1.db, x) { SmallRun(w, visits, x); }
    var rest := CancelAll(w1, ms - {m});
    LooseConcat(w, visits, rest);
    es := visits + rest;
    assert w.db.collecting - {m} - (ms - {m}) == w.db.collecting - ms;
  }

  lemma NothingTaken(w: World)
    ensures LooseRun(w, []) && LooseExec(w, []) == w
  {
  }

  lemma CancelOne(w: World, m: nat) returns (es: seq<Event>)
    requires m in w.db.collecting && Sane(w.db) && m < w.db.counter && Small(w.db, m)
    ensures LooseRun(w, es) && forall e :: e in es ==> !e.Register?
    ensures
      var d, d' := w.db, LooseExec(w, es).db;
      d' == d.(mem := d'.mem, collecting := d.collecting - {m})
  {
    hide LooseRun, LooseExec;
    var visits, t := CollectAll(w, m, w.db.collecting[m].todo);
    var w1 := LooseExec(w, visits);
    SmallRun(w, visits, m);
    assert Enabled(w1.db, Cancel(m)) by { CanCancel(w1.db, m); }
    OneRun(w1, Cancel(m));
    LooseConcat(w, visits, [Cancel(m)]);
    es := visits + [Cancel(m)];
    assert w1.db.collecting - {m} == w.db.collecting - {m};
  }

  lemma CanCancel(d: Db, m: nat)
    requires m in d.collecting && Small(d, m) && d.collecting[m].todo == {}
    ensures Enabled(d, Cancel(m))
  {
    var t := d.collecting[m].table;
    Subset(t.Keys, Within(d, m));
    assert |t.Keys| == |t|;
  }

  /** A flush that has been passed when it registers finds too little; the others are as in the protocol. */
  ghost predicate Harmless(d: Db, e: Event) {
    e.Register? ==> Unpassed(d, e.minXip) || |CollectableKeys(d, e.minXip)| < d.writeBufferSize / 2
  }

  ghost predicate HarmlessRun(w: World, es: seq<Event>): (b: bool)
    ensures b ==> LooseRun(w, es)
    decreases |es|
  {
    es == [] || (Takes(w.db, es[0]) && Harmless(w.db, es[0]) && HarmlessRun(After(w, es[0]), es[1..]))
  }

  ghost predicate Smalls(d: Db, late: set<nat>) {
    forall m :: m in late ==> Small(d, m)
  }

  /** A flush that is passed and finds too little does not publish. */
  lemma HarmlessStep(a: World, b: World, late: set<nat>, e: Event)
    requires Sim(a, b, late) && Smalls(a.db, late) && Takes(a.db, e) && Harmless(a.db, e)
    ensures Orderly(a.db, e) && Smalls(After(a, e).db, LateAfter(a.db, e, late))
  {
    hide Takes, After, Small, Within, CollectableKeys, TwinDb, Inv, Unpassed;
    SimClaims(a, b, late);
    if e.Publish? {
      PublishAfter(a, b, late, e.minXip) by { PublishTaken(a.db, e); }
    }
    forall m | m in LateAfter(a.db, e, late) ensures Small(After(a, e).db, m) {
      if m in late { LatePassed(a, b, late, m); }
      if e == Register(m) { RegisterSmall(a, e, m, late); } else { SmallStep(a, e, m); }
    }
  }

  lemma PublishTaken(d: Db, e: Event)
    requires Takes(d, e) && e.Publish?
    ensures Enabled(d, Publish(e.minXip))
  {
  }

  lemma RegisterSmall(a: World, e: Event, m: nat, late: set<nat>)
    requires e == Register(m) && Takes(a.db, e) && Harmless(a.db, e) && m in LateAfter(a.db, e, late)
    requires m in late ==> !Unpassed(a.db, m)
    ensures Small(After(a, e).db, m)
  {
    SmallStart(a.db, m);
  }

  lemma PublishAfter(a: World, b: World, late: set<nat>, m: nat)
    requires Sim(a, b, late) && Enabled(a.db, Publish(m)) && (m in late ==> Small(a.db, m))
    ensures Unpassed(a.db, m)
  {
    if m in late {
      PublishTracks(a.db, m, Within(a.db, m));
    } else {
      assert m in b.db.collecting && b.lastPub <= m;
      LatePassed(a, b, late, m);
    }
  }

  lemma {:induction false} HarmlessIsOrderly(a: World, b: World, late: set<nat>, es: seq<Event>) returns (es': seq<Event>, late': set<nat>)
    requires Sim(a, b, late) && Smalls(a.db, late) && HarmlessRun(a, es)
    ensures OrderlyRun(a, es) && ValidRun(b, es') && Sim(LooseExec(a, es), Exec(b, es'), late') && Smalls(LooseExec(a, es).db, late')
    decreases |es|
  {
    hide Sim, Takes, After, Enabled, Step, Orderly, Harmless, Smalls;
    if es == [] { return [], late; }
    HarmlessStep(a, b, late, es[0]);
    var first := SimStep(a, b, late, es[0]);
    var rest;
    rest, late' := HarmlessIsOrderly(After(a, es[0]), Exec(b, first), LateAfter(a.db, es[0], late), es[1..]);
    es' := first + rest;
    RunJoined(b, first, rest);
  }

  /** What the program reaches when every flush that registers passed finds too little. */
  ghost predicate HarmlessReachable(w: World) {
    exists buf: nat, es :: buf >= 2 && HarmlessRun(InitWorld(buf), es) && LooseExec(InitWorld(buf), es) == w
  }

  lemma HasSmallTwin(w: World) returns (b: World, late: set<nat>)
    requires HarmlessReachable(w)
    ensures LateReachable(w) && Sim(w, b, late) && Smalls(w.db, late)
  {
    hide Sim, HarmlessRun, OrderlyRun;
    var buf: nat, es :| buf >= 2 && HarmlessRun(InitWorld(buf), es) && LooseExec(InitWorld(buf), es) == w;
    assert Sim(InitWorld(buf), InitWorld(buf), {}) by { SimStart(buf); }
    var es';
    es', late := HarmlessIsOrderly(InitWorld(buf), InitWorld(buf), {}, es);
    b := Exec(InitWorld(buf), es');
  }

  /** The older flushes of a state that a passed flush joins are late ones themselves. */
  lemma OldersAreLate(a: World, b: World, late: set<nat>, m: nat)
    requires Sim(a, b, late) && !Unpassed(a.db, m)
    ensures forall x :: x in a.db.collecting && x !in late ==> m < x
  {
    forall x | x in a.db.collecting && x !in late ensures m < x { assert x in b.db.collecting; }
  }

  /** The passed flush has collected; the other late ones give up, and all else is installed. */
  lemma ClearAway(w: World, m: nat, ms: set<nat>) returns (es: seq<Event>)
    requires ms <= w.db.collecting.Keys && Sane(w.db) && forall x :: x in ms ==> x < w.db.counter && Small(w.db, x)
    ensures LooseRun(w, es) && Register(m) !in es
    ensures
      var d, d' := w.db, LooseExec(w, es).db;
      && d'.collecting == d.collecting - ms && d'.imm == map[] && d'.writeBufferSize == d.writeBufferSize
      && (forall i :: i in d.imm ==> i <= d'.minXip) && (d.imm == map[] ==> d'.minXip == d.minXip)
  {
    hide LooseRun, LooseExec, Small, Sane;
    var es1 := CancelAll(w, ms);
    var w1 := LooseExec(w, es1);
    var es2 := InstallAll(w1, w1.db.imm.Keys);
    LooseConcat(w, es1, es2);
    es := es1 + es2;
  }

  lemma SmallAfter(a: World, b: World, late: set<nat>, m: nat, visits: seq<Event>, x: nat)
    requires Sim(a, b, late) && Smalls(a.db, late) && Takes(a.db, Register(m)) && x in late && x in a.db.collecting
    requires LooseRun(After(a, Register(m)), visits) && forall e :: e in visits ==> e.SnapshotKey?
    ensures Small(LooseExec(After(a, Register(m)), visits).db, x) && x < a.db.counter
  {
    hide LooseRun, LooseExec, Small;
    SimClaims(a, b, late);
    SmallStep(a, Register(m), x);
    SaneStep(a, Register(m));
    SmallRun(After(a, Register(m)), visits, x);
  }

  /** A flush that was passed before it registers, and then collects enough, can be left to install last. */
  lemma RunBack(a: World, b: World, late: set<nat>, m: nat)
    requires Sim(a, b, late) && Smalls(a.db, late) && Takes(a.db, Register(m)) && !Unpassed(a.db, m)
    requires |CollectableKeys(a.db, m)| >= a.db.writeBufferSize / 2
    ensures CanGoBack(After(a, Register(m)), m)
  {
    hide LooseRun, LooseExec, Sim, Unpassed, GoesBack, Collectable, Small, Smalls, Within;
    var w0 := After(a, Register(m));
    var visits, t := CollectAll(w0, m, a.db.mem.Keys);
    var w1 := LooseExec(w0, visits);
    var ms := late * a.db.collecting.Keys;
    SimClaims(a, b, late);
    SaneStep(a, Register(m));
    forall x | x in ms ensures x < w1.db.counter && Small(w1.db, x) { SmallAfter(a, b, late, m, visits, x); }
    var clear := ClearAway(w1, m, ms);
    var w2 := LooseExec(w1, clear);
    OldersAreLate(a, b, late, m);
    ImmAbove(a, b, late);
    PassedBy(a.db, m, w2.db.minXip);
    EnoughLeft(a.db, m, t);
    assert m !in ms && w2.db.collecting[m] == Flush({}, t);
    PublishBehind(w2, m);
    LooseConcat(w1, clear, [Publish(m)]);
    LooseConcat(w0, visits, clear + [Publish(m)]);
    assert CanGoBack(w0, m) by { GoesBy(w0, m, visits + (clear + [Publish(m)])); }
  }

  lemma GoesBy(w: World, m: nat, es: seq<Event>)
    requires LooseRun(w, es) && Register(m) !in es && GoesBack(LooseExec(w, es).db, m)
    ensures CanGoBack(w, m)
  {
  }

  /** In whatever the program reaches by way of flushes that harm nothing: the next one that registers can come
      to be installed after a younger one, so that the assertion on `min_xip` fails, exactly when a younger flush
      has published before it registers and at least half a write buffer of keys are left for it to collect. */
  lemma GoesBackIff(w: World, m: nat)
    requires HarmlessReachable(w) && Takes(w.db, Register(m))
    ensures CanGoBack(After(w, Register(m)), m) <==> !Harmless(w.db, Register(m))
  {
    hide Sim, Smalls, HarmlessReachable, CanGoBack, Unpassed, CollectableKeys, Low, LateReachable;
    var b, late := HasSmallTwin(w);
    if !Harmless(w.db, Register(m)) { RunBack(w, b, late, m); }
    if CanGoBack(After(w, Register(m)), m) {
      SimClaims(w, b, late);
      ImmAbove(w, b, late);
      OnlyIfPassed(w, m);
    }
  }

  lemma ImmAbove(a: World, b: World, late: set<nat>)
    requires Sim(a, b, late)
    ensures forall i :: i in a.db.imm ==> a.db.minXip < i
  {
  }
}

/** Which keys the tables below the memtable have a value of: a bookkeeping of what flushes have published,
    which no lookup reads. */
module Published {
  import opened Options
  import opened Chain
  import opened Protocol
  import opened Invariant
  import opened Preservation
  import opened Runs

  /** The first flush that published a value of the key is among the immutable tables until it is installed,
      and from then on the sstables have the key. */
  ghost predicate LiveInv(imm: map<nat, Table>, sst: Table, minXip: nat, first: map<Key, nat>, lastPub: nat, k: Key) {
    && (k in first ==> first[k] <= lastPub)
    && (k in sst <==> k in first && first[k] <= minXip)
    && (k in sst ==> sst[k].record.Some?)
    && (forall m :: m in imm && Live(imm[m], k) ==> k in first && first[k] <= m)
    && (k in first && first[k] > minXip ==> first[k] in imm && Live(imm[first[k]], k))
  }

  ghost predicate LiveOk(w: World, k: Key) {
    LiveInv(w.db.imm, w.db.sst, w.db.minXip, w.firstLive, w.lastPub, k)
  }

  lemma PublishLive(imm: map<nat, Table>, sst: Table, minXip: nat, first: map<Key, nat>, lastPub: nat, k: Key, m: nat, t: Table)
    requires LiveInv(imm, sst, minXip, first, lastPub, k) && m !in imm && m > lastPub && m > minXip
    ensures LiveInv(imm[m := t], sst, minXip, NoteLive(first, t, m), m, k)
  {
  }

  lemma InstallLive(imm: map<nat, Table>, sst: Table, minXip: nat, first: map<Key, nat>, lastPub: nat, k: Key, m: nat)
    requires LiveInv(imm, sst, minXip, first, lastPub, k) && IsMin(m, imm.Keys) && minXip < m
    ensures LiveInv(imm - {m}, sst + LiveEntries(imm[m]), m, first, lastPub, k)
  {
  }

  /** All other events leave tables and bookkeeping alone. */
  lemma OthersSame(w: World, e: Event)
    requires Enabled(w.db, e) && !e.Publish? && !e.Install?
    ensures
      var w' := Step(w, e);
      && w'.db.imm == w.db.imm && w'.db.sst == w.db.sst && w'.db.minXip == w.db.minXip
      && w'.firstLive == w.firstLive && w'.lastPub == w.lastPub
  {
  }

  lemma LiveStep(w: World, e: Event, k: Key)
    requires FlushInv(w) && Enabled(w.db, e) && LiveOk(w, k)
    ensures LiveOk(Step(w, e), k)
    ensures k in w.firstLive ==> k in Step(w, e).firstLive && Step(w, e).firstLive[k] == w.firstLive[k]
    ensures Step(w, e).db.minXip >= w.db.minXip
  {
    match e
    case Publish(m) =>
      PublishOnce(w, m);
      PublishLive(w.db.imm, w.db.sst, w.db.minXip, w.firstLive, w.lastPub, k, m, w.db.collecting[m].table);
    case Install(m) => InstallLive(w.db.imm, w.db.sst, w.db.minXip, w.firstLive, w.lastPub, k, m);
    case _ => OthersSame(w, e);
  }

  lemma {:induction false} LiveRun(w: World, es: seq<Event>, k: Key)
    requires Inv(w) && ValidRun(w, es) && LiveOk(w, k)
    ensures LiveOk(Exec(w, es), k)
    ensures k in w.firstLive ==> k in Exec(w, es).firstLive && Exec(w, es).firstLive[k] == w.firstLive[k]
    ensures Exec(w, es).db.minXip >= w.db.minXip
    decreases |es|
  {
    if es != [] {
      StepKeeps(w, es[0]);
      LiveStep(w, es[0], k);
      LiveRun(Step(w, es[0]), es[1..], k);
    }
  }

  /** A value of the key had been published when the immutable tables were read, at `w2`, or published and
      installed before the sstables were, at `w3`. */
  predicate Surfaces(w2: World, w3: World, k: Key) {
    k in w2.firstLive || (k in w3.firstLive && w3.firstLive[k] <= w3.db.minXip)
  }

  lemma {:induction false} ImmReadSome(imm: map<nat, Table>, bound: nat, k: Key, m: nat)
    requires m <= bound && m in imm && Live(imm[m], k)
    ensures ImmRead(imm, bound, k).Some?
    decreases bound
  {
    if m < bound && !(bound in imm && Live(imm[bound], k)) { ImmReadSome(imm, bound - 1, k, m); }
  }

  /** The layers below the memtable return a value for a key exactly when one has surfaced. */
  lemma StorageReadIff(w2: World, es: seq<Event>, k: Key)
    requires Inv(w2) && LiveOk(w2, k) && ValidRun(w2, es)
    ensures StorageRead(w2.db, Exec(w2, es).db, k).Some? <==> Surfaces(w2, Exec(w2, es), k)
  {
    var w3 := Exec(w2, es);
    LiveRun(w2, es, k);
    if exists m :: m in w2.db.imm && Live(w2.db.imm[m], k) {
      var m :| m in w2.db.imm && Live(w2.db.imm[m], k);
      assert FlushTs(w2.db, m);
      ImmReadSome(w2.db.imm, w2.db.counter, k, m);
    } else {
      ImmReadNone(w2.db.imm, w2.db.counter, k);
    }
  }
}

/**
 The two state machines side by side: the flush protocol installs tables, the version set keeps them
 in files and compacts these at will.
 */
module Storage {
  import opened Options
  import opened Files
  import P = Protocol
  import I = Invariant
  import R = Runs
  import T = Theorems
  import U = Published
  import V = Preservation
  import L = Lsm
  import S = LsmSteps
  import LT = LsmTheorems

  datatype Both = Both(world: I.World, levels: L.State)

  /** A step of the store, a step of the version set, or an install, which is a step of both. */
  datatype Event = StoreStep(e: P.Event) | LevelStep(l: L.Event) | InstallStep(minXip: nat, f: File)

  /** The file has the values of the table; tombstones are not written. */
  ghost predicate Holds(f: File, t: P.Table) {
    forall k :: Find(f.run, k) == if P.Live(t, k) then t[k].record else None
  }

  ghost predicate Enabled(b: Both, e: Event) {
    match e
    case StoreStep(e) => !e.Install? && P.Enabled(b.world.db, e)
    case LevelStep(l) => !l.AddFlush? && L.Enabled(b.levels, l)
    case InstallStep(m, f) =>
      && P.Enabled(b.world.db, P.Install(m)) && Holds(f, b.world.db.imm[m])
      && f.minXip == m && FileOk(f) && !f.busy && f.ref in b.levels.pending && |b.levels.files| > 0
  }

  ghost function Apply(b: Both, e: Event): Both
    requires Enabled(b, e)
  {
    match e
    case StoreStep(e) => b.(world := I.Step(b.world, e))
    case LevelStep(l) => b.(levels := L.Apply(b.levels, l))
    case InstallStep(m, f) => Both(I.Step(b.world, P.Install(m)), L.FlushState(b.levels, f))
  }

  /** The version set answers as the store's table of installed values does. */
  ghost predicate Agree(b: Both) {
    && b.levels.minXip == b.world.db.minXip
    && forall k :: L.Lookup(b.levels.files, k) == P.SstRead(b.world.db, k)
  }

  ghost predicate Inv(b: Both) {
    I.Inv(b.world) && L.Inv(b.levels) && Agree(b)
  }

  /** The install of the oldest published flush is one the version set accepts: its assertion that
      `min_xip` does not go back holds. */
  lemma InstallAccepted(b: Both, m: nat, f: File)
    requires Inv(b) && Enabled(b, InstallStep(m, f))
    ensures L.Enabled(b.levels, L.AddFlush(f)) && f.minXip > b.levels.minXip
  {
    assert I.FlushInv(b.world);
  }

  lemma InstallAgrees(b: Both, m: nat, f: File, k: Key)
    requires Inv(b) && Enabled(b, InstallStep(m, f))
    ensures L.Lookup(Apply(b, InstallStep(m, f)).levels.files, k) == P.SstRead(Apply(b, InstallStep(m, f)).world.db, k)
  {
    InstallAccepted(b, m, f);
    LT.FlushLookup(b.levels, f, k);
    assert L.Lookup(b.levels.files, k) == P.SstRead(b.world.db, k);
    var t := b.world.db.imm[m];
    assert Find(f.run, k) == if P.Live(t, k) then t[k].record else None;
  }

  lemma StoreKeepsSst(w: I.World, e: P.Event, k: Key)
    requires P.Enabled(w.db, e) && !e.Install?
    ensures P.SstRead(I.Step(w, e).db, k) == P.SstRead(w.db, k) && I.Step(w, e).db.minXip == w.db.minXip
  {
  }

  lemma StoreKeeps(b: Both, e: P.Event)
    requires Inv(b) && P.Enabled(b.world.db, e) && !e.Install?
    ensures Inv(b.(world := I.Step(b.world, e)))
  {
    V.StepKeeps(b.world, e);
    forall k ensures P.SstRead(I.Step(b.world, e).db, k) == P.SstRead(b.world.db, k) { StoreKeepsSst(b.world, e, k); }
  }

  lemma LevelKeeps(b: Both, l: L.Event)
    requires Inv(b) && L.Enabled(b.levels, l) && !l.AddFlush?
    ensures Inv(b.(levels := L.Apply(b.levels, l)))
  {
    S.StepKeeps(b.levels, l);
    forall k ensures L.Lookup(L.Apply(b.levels, l).files, k) == L.Lookup(b.levels.files, k) { LT.StepLookup(b.levels, l, k); }
    MinXipStays(b.levels, l);
  }

  lemma InstallKeeps(b: Both, m: nat, f: File)
    requires Inv(b) && Enabled(b, InstallStep(m, f))
    ensures Inv(Apply(b, InstallStep(m, f)))
  {
    V.StepKeeps(b.world, P.Install(m));
    InstallAccepted(b, m, f);
    S.FlushKeeps(b.levels, f);
    forall k ensures
      L.Lookup(Apply(b, InstallStep(m, f)).levels.files, k) == P.SstRead(Apply(b, InstallStep(m, f)).world.db, k)
    {
      InstallAgrees(b, m, f, k);
    }
  }

  lemma StepKeeps(b: Both, e: Event)
    requires Inv(b) && Enabled(b, e)
    ensures Inv(Apply(b, e))
  {
    match e
    case StoreStep(e) => StoreKeeps(b, e);
    case LevelStep(l) => LevelKeeps(b, l);
    case InstallStep(m, f) => InstallKeeps(b, m, f);
  }

  lemma MinXipStays(s: L.State, l: L.Event)
    requires L.Enabled(s, l) && !l.AddFlush?
    ensures L.Apply(s, l).minXip == s.minXip
  {
  }

  function Init(writeBufferSize: nat, levels: nat): Both {
    Both(I.InitWorld(writeBufferSize), L.Init(levels))
  }

  ghost predicate ValidRun(b: Both, es: seq<Event>)
    decreases |es|
  {
    es == [] || (Enabled(b, es[0]) && ValidRun(Apply(b, es[0]), es[1..]))
  }

  ghost function Exec(b: Both, es: seq<Event>): Both
    requires ValidRun(b, es)
    decreases |es|
  {
    if es == [] then b else Exec(Apply(b, es[0]), es[1..])
  }

  lemma {:induction false} RunKeeps(b: Both, es: seq<Event>)
    requires Inv(b) && ValidRun(b, es)
    ensures Inv(Exec(b, es))
    decreases |es|
  {
    if es != [] {
      StepKeeps(b, es[0]);
      RunKeeps(Apply(b, es[0]), es[1..]);
    }
  }

  lemma {:induction false} EmptyLookup(levels: nat, k: Key)
    ensures L.Lookup(seq(levels, _ => []), k) == None
  {
    if levels > 0 {
      assert seq<seq<File>>(levels, _ => [])[1..] == seq<seq<File>>(levels - 1, _ => []);
      EmptyLookup(levels - 1, k);
    }
  }

  lemma InitAgrees(writeBufferSize: nat, levels: nat)
    requires writeBufferSize >= 2 && levels > 0
    ensures Inv(Init(writeBufferSize, levels))
  {
    V.InitInv(writeBufferSize);
    L.InitInv(levels);
    forall k ensures L.Lookup(L.Init(levels).files, k) == None { EmptyLookup(levels, k); }
  }

  /** The lookup through memtable, immutable tables and the files of the version set. */
  function LayeredRead(d1: P.Db, d2: P.Db, files: seq<seq<File>>, s: nat, k: Key): Option<Value> {
    if P.MemRead(d1, s, k).Some? then P.MemRead(d1, s, k)
    else if P.ImmRead(d2.imm, d2.counter, k).Some? then P.ImmRead(d2.imm, d2.counter, k)
    else L.Lookup(files, k)
  }

  /** A lookup through the files is the lookup of the protocol; so every statement about the one is a
      statement about the other. */
  lemma FilesAnswer(b: Both, d1: P.Db, d2: P.Db, s: nat, k: Key)
    requires Inv(b)
    ensures LayeredRead(d1, d2, b.levels.files, s, k) == P.LayeredRead(d1, d2, b.world.db, s, k)
  {
  }

  // ----- the store's part of a run of both is a run of the store -----

  function StoreEvents(es: seq<Event>): seq<P.Event> {
    if es == [] then []
    else
      (match es[0]
       case StoreStep(e) => [e]
       case LevelStep(l) => []
       case InstallStep(m, f) => [P.Install(m)]) + StoreEvents(es[1..])
  }

  lemma {:induction false} StoreRun(b: Both, es: seq<Event>)
    requires ValidRun(b, es)
    ensures R.ValidRun(b.world, StoreEvents(es)) && R.Exec(b.world, StoreEvents(es)) == Exec(b, es).world
    decreases |es|
  {
    if es != [] {
      StoreRun(Apply(b, es[0]), es[1..]);
      var rest := StoreEvents(es[1..]);
      match es[0]
      case StoreStep(e) => assert ([e] + rest)[1..] == rest;
      case LevelStep(l) => assert StoreEvents(es) == rest;
      case InstallStep(m, f) => assert ([P.Install(m)] + rest)[1..] == rest;
    }
  }

  /** Three states along a joint run in which transaction `s` is inside one lookup. */
  ghost predicate LookupRun(b0: Both, before: seq<Event>, es: seq<Event>, es': seq<Event>, s: nat) {
    && ValidRun(b0, before) && ValidRun(Exec(b0, before), es) && ValidRun(Exec(Exec(b0, before), es), es')
    && s in Exec(b0, before).world.db.xips
    && R.Idle(s, StoreEvents(es)) && R.Idle(s, StoreEvents(es'))
  }

  /** A run from the initial state ends in a state that the store reaches by itself. */
  lemma StoreReaches(writeBufferSize: nat, levels: nat, es: seq<Event>)
    requires writeBufferSize >= 2 && levels > 0 && ValidRun(Init(writeBufferSize, levels), es)
    ensures Inv(Exec(Init(writeBufferSize, levels), es)) && T.Reachable(Exec(Init(writeBufferSize, levels), es).world)
  {
    hide Inv;
    var b0 := Init(writeBufferSize, levels);
    InitAgrees(writeBufferSize, levels);
    RunKeeps(b0, es);
    StoreRun(b0, es);
  }

  lemma StoreStates(b1: Both, es: seq<Event>, es': seq<Event>)
    requires Inv(b1) && ValidRun(b1, es) && ValidRun(Exec(b1, es), es')
    ensures
      var ps, ps' := StoreEvents(es), StoreEvents(es');
      && R.ValidRun(b1.world, ps) && R.Exec(b1.world, ps) == Exec(b1, es).world
      && R.ValidRun(R.Exec(b1.world, ps), ps') && R.Exec(R.Exec(b1.world, ps), ps') == Exec(Exec(b1, es), es').world
      && Inv(Exec(Exec(b1, es), es'))
  {
    hide Inv;
    RunKeeps(b1, es);
    RunKeeps(Exec(b1, es), es');
    StoreRun(b1, es);
    StoreRun(Exec(b1, es), es');
  }

  /** Snapshot reads through the files: a running transaction reads what the history prescribes, whatever
      flushes, installs and compactions go on before the lookup and between its layers, but for a key that
      the history has nothing for and of which a flush has published a value by then. */
  lemma SnapshotRead(writeBufferSize: nat, levels: nat, before: seq<Event>, es: seq<Event>, es': seq<Event>, s: nat, k: Key)
    requires writeBufferSize >= 2 && levels > 0 && LookupRun(Init(writeBufferSize, levels), before, es, es', s)
    ensures
      var b1 := Exec(Init(writeBufferSize, levels), before);
      var b2 := Exec(b1, es);
      var b3 := Exec(b2, es');
      var read := LayeredRead(b1.world.db, b2.world.db, b3.levels.files, s, k);
      && s in b1.world.spec.txns
      && var prescribed := P.SpecRead(b1.world.spec, s, k);
         && (read == prescribed <==> prescribed.Some? || !U.Surfaces(b2.world, b3.world, k))
         && (T.NeverDeleted(b1.world.spec, s, k) ==> read == prescribed)
  {
    hide Inv, R.ValidRun, R.Exec, P.SpecRead, P.LayeredRead, LayeredRead;
    var b0 := Init(writeBufferSize, levels);
    var b1 := Exec(b0, before);
    StoreReaches(writeBufferSize, levels, before);
    StoreStates(b1, es, es');
    T.SnapshotRead(b1.world, StoreEvents(es), StoreEvents(es'), s, k);
    FilesAnswer(Exec(Exec(b1, es), es'), b1.world.db, Exec(b1, es).world.db, s, k);
  }
}

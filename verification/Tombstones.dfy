/** A run in which a deleted value is read again, and the width of the collection claim. */
module Tombstones {
  import opened Options
  import opened Chain
  import opened Protocol
  import opened Invariant
  import opened Runs
  import opened Preservation
  import ViewSteps

  /** Key 0 is written and committed at 2, published by flush 3, deleted by transaction 3, which
      commits at 4; then transaction 5 starts. */
  function Script(v: Value): seq<Event> {
    [StartTxn, WriteKey(1, 0, Some(v)), CommitTxn(1), StartTxn, Register(3), SnapshotKey(3, 0), Publish(3),
     WriteKey(3, 0, None), CommitTxn(3), StartTxn]
  }

  function Writer(v: Value, phase: Phase): Txn { Txn(phase, map[0 := Some(v)]) }

  function Head(v: Value, claim: nat): Node { Node(Stamp.Commit(2), claim, Some(v)) }

  function Collected(v: Value): Table { map[0 := Entry(2, Some(v))] }

  function BeforeFlush(v: Value, ch: Versions, collecting: map<nat, Flush>): World {
    World(Db(4, {3}, map[3 := {}], map[0 := ch], collecting, map[], map[], 0, 2),
          Spec(4, map[1 := Writer(v, Committed(2)), 3 := Txn(Active, map[])], map[0 := map[2 := Version(Some(v), 1)]]),
          {}, map[], 0, map[])
  }

  function AfterFlush(v: Value, counter: nat, redo: map<nat, set<Key>>, xips: set<nat>, ch: Versions, deleter: Txn,
                      reader: map<nat, Txn>, h: map<nat, Version>): World {
    World(Db(counter, xips, redo, map[0 := ch], map[], map[3 := Collected(v)], map[], 0, 2),
          Spec(counter, map[1 := Writer(v, Committed(2)), 3 := deleter] + reader, map[0 := h]),
          {3}, map[0 := 2], 3, map[0 := 3])
  }

  function Full(v: Value): World {
    BeforeFlush(v, [Head(v, 3)], map[3 := Flush({}, Collected(v))])
  }

  function Flushed(v: Value): World {
    AfterFlush(v, 4, map[3 := {}], {3}, [Head(v, 3)], Txn(Active, map[]), map[], Written(v))
  }

  function Written(v: Value): map<nat, Version> { map[2 := Version(Some(v), 1)] }

  function Rewritten(v: Value): map<nat, Version> { map[2 := Version(Some(v), 1), 4 := Version(None, 3)] }

  function Tomb(v: Value): Versions { [Node(Stamp.Commit(4), 0, None), Head(v, 3)] }

  function Deleting(v: Value): World {
    AfterFlush(v, 4, map[3 := {0}], {3}, [Node(Uncommitted(3), 0, None), Head(v, 3)],
               Txn(Active, map[0 := None]), map[], Written(v))
  }

  function Deleted(v: Value): World {
    AfterFlush(v, 5, map[], {}, Tomb(v), Txn(Committed(4), map[0 := None]), map[], Rewritten(v))
  }

  function Reading(v: Value): World {
    AfterFlush(v, 6, map[5 := {}], {5}, Tomb(v), Txn(Committed(4), map[0 := None]), map[5 := Txn(Active, map[])], Rewritten(v))
  }

  function State(v: Value, i: nat): World {
    var h := Written(v);
    match i
    case 0 => InitWorld(2)
    case 1 => World(Db(2, {1}, map[1 := {}], map[], map[], map[], map[], 0, 2),
                    Spec(2, map[1 := Txn(Active, map[])], map[]), {}, map[], 0, map[])
    case 2 => World(Db(2, {1}, map[1 := {0}], map[0 := [Node(Uncommitted(1), 0, Some(v))]], map[], map[], map[], 0, 2),
                    Spec(2, map[1 := Writer(v, Active)], map[]), {}, map[], 0, map[])
    case 3 => World(Db(3, {}, map[], map[0 := [Head(v, 0)]], map[], map[], map[], 0, 2),
                    Spec(3, map[1 := Writer(v, Committed(2))], map[0 := h]), {}, map[], 0, map[])
    case 4 => BeforeFlush(v, [Head(v, 0)], map[])
    case 5 => BeforeFlush(v, [Head(v, 0)], map[3 := Flush({0}, map[])])
    case 6 => Full(v)
    case 7 => Flushed(v)
    case 8 => Deleting(v)
    case 9 => Deleted(v)
    case _ => Reading(v)
  }

  /** The script's step `i` leads from state `i` to the next one. */
  ghost predicate Leads(v: Value, i: nat)
    requires i < 10
  {
    Enabled(State(v, i).db, Script(v)[i]) && Step(State(v, i), Script(v)[i]) == State(v, i + 1)
  }

  lemma Leads0(v: Value) ensures Leads(v, 0) {}

  lemma Leads1(v: Value)
    ensures Leads(v, 1)
  {
    assert {} + {0} == {0};
    var w, w' := Step(State(v, 1), Script(v)[1]), State(v, 2);
    assert Push([], 1, Some(v)) == [Node(Uncommitted(1), 0, Some(v))];
    assert w.spec.txns[1].writes == map[0 := Some(v)];
    assert w.spec.txns == w'.spec.txns && w.db.redo == w'.db.redo && w.db.mem == w'.db.mem;
  }

  lemma Leads2(v: Value)
    ensures Leads(v, 2)
  {
    hide Full, Flushed, Deleting, Deleted, Reading, BeforeFlush;
    var w := State(v, 2);
    CommitIs(w, 1);
    assert StampAll([Node(Uncommitted(1), 0, Some(v))], 1, 2) == [Head(v, 0)];
    assert StampMem(w.db.mem, {0}, 1, 2) == map[0 := [Head(v, 0)]];
    assert w.db.xips - {1} == {} && w.db.redo - {1} == map[];
    assert Extend(w.spec, 1, map[0 := Some(v)]) == map[0 := Written(v)];
    LeadsBy(v, 2, w, CommitTxn(1), State(v, 3));
  }

  lemma Leads3(v: Value) ensures Leads(v, 3) {}

  lemma Leads4(v: Value)
    ensures Leads(v, 4)
  {
    assert State(v, 4).db.mem.Keys == {0};
  }

  lemma Leads5(v: Value)
    ensures Leads(v, 5)
  {
    assert FirstOld([Head(v, 0)], 0, 3) == 0 && Mark([Head(v, 0)], 3) == [Head(v, 3)];
    assert {0} - {0} == {};
  }

  lemma CanPublish(v: Value)
    ensures Enabled(Full(v).db, Publish(3))
  {
    assert Full(v).db.collecting.Keys == {3};
    assert |Collected(v)| == |Collected(v).Keys| == |{0}|;
  }

  lemma Publishes(v: Value)
    ensures PublishDb(Full(v).db, 3) == Flushed(v).db && Full(v).spec == Flushed(v).spec
    ensures Raise(map[], Collected(v)) == map[0 := 2] && {} + {3} == {3} && NoteLive(map[], Collected(v), 3) == map[0 := 3]
  {
    assert Full(v).db.collecting - {3} == map[];
    assert Full(v).spec.txns == Flushed(v).spec.txns;
  }

  lemma FlushPublishes(v: Value)
    ensures Enabled(Full(v).db, Publish(3)) && Step(Full(v), Publish(3)) == Flushed(v)
  {
    CanPublish(v);
    Publishes(v);
  }

  lemma Named(v: Value)
    ensures State(v, 6) == Full(v) && State(v, 7) == Flushed(v) && State(v, 8) == Deleting(v) && State(v, 9) == Deleted(v)
    ensures State(v, 0) == InitWorld(2) && State(v, 10) == Reading(v) && Script(v)[9] == StartTxn
    ensures Script(v)[6] == Publish(3) && Script(v)[7] == WriteKey(3, 0, None) && Script(v)[8] == CommitTxn(3)
  {
    hide Full, Flushed, Deleting, Deleted, Reading;
  }

  lemma LeadsBy(v: Value, i: nat, w: World, e: Event, w': World)
    requires i < 10 && State(v, i) == w && Script(v)[i] == e && State(v, i + 1) == w'
    requires Enabled(w.db, e) && Step(w, e) == w'
    ensures Leads(v, i)
  {
  }

  lemma Leads6(v: Value)
    ensures Leads(v, 6)
  {
    hide State, Script, Step, Enabled, Full, Flushed, Deleting;
    Named(v);
    FlushPublishes(v);
    LeadsBy(v, 6, Full(v), Publish(3), Flushed(v));
  }

  lemma DeleteWrites(v: Value)
    ensures Enabled(Flushed(v).db, WriteKey(3, 0, None)) && Step(Flushed(v), WriteKey(3, 0, None)) == Deleting(v)
  {
    hide State, StampAll, StampMem, Unwind, Mark, Truncate, SnapshotDb;
    assert {} + {0} == {0};
    assert Push([Head(v, 3)], 3, None) == [Node(Uncommitted(3), 0, None), Head(v, 3)];
  }

  lemma Leads7(v: Value)
    ensures Leads(v, 7)
  {
    hide State, Script, Step, Enabled, Full, Flushed, Deleting;
    Named(v);
    DeleteWrites(v);
    LeadsBy(v, 7, Flushed(v), WriteKey(3, 0, None), Deleting(v));
  }

  lemma DeleteStamps(v: Value)
    ensures StampMem(Deleting(v).db.mem, {0}, 3, 4) == Deleted(v).db.mem
  {
    assert StampAll([Node(Uncommitted(3), 0, None), Head(v, 3)], 3, 4) == Tomb(v);
  }

  lemma DeleteExtends(v: Value)
    ensures Extend(Deleting(v).spec, 3, map[0 := None]) == Deleted(v).spec.hist
  {
    var writes: map<Key, Option<Value>> := map[0 := None];
    assert Deleting(v).spec.hist.Keys + writes.Keys == {0};
    assert HistOf(Deleting(v).spec, 0) == Written(v);
  }

  lemma DeleteCommits(v: Value)
    ensures CommitWorld(Deleting(v), 3) == Deleted(v)
  {
    var w := Deleting(v);
    DeleteStamps(v);
    DeleteExtends(v);
    assert w.spec.txns[3].writes == map[0 := None];
    assert w.db.redo - {3} == map[] && w.db.xips - {3} == {};
    assert w.spec.txns[3 := Txn(Committed(4), map[0 := None])] == Deleted(v).spec.txns;
  }

  lemma Leads8(v: Value)
    ensures Leads(v, 8)
  {
    hide State, Script, Deleted;
    Named(v);
    CommitIs(Deleting(v), 3);
    DeleteCommits(v);
    LeadsBy(v, 8, Deleting(v), CommitTxn(3), Deleted(v));
  }

  lemma StartsFive(v: Value)
    ensures Enabled(Deleted(v).db, StartTxn) && Step(Deleted(v), StartTxn) == Reading(v)
  {
    hide Tomb, Rewritten, Collected;
    assert {} + {5} == {5} && Deleted(v).db.redo[5 := {}] == map[5 := {}];
    assert Deleted(v).spec.txns[5 := Txn(Active, map[])] == Reading(v).spec.txns;
  }

  lemma Leads9(v: Value)
    ensures Leads(v, 9)
  {
    hide State, Deleted, Reading, Enabled, Step, Full, Flushed, Deleting;
    Named(v);
    StartsFive(v);
    LeadsBy(v, 9, Deleted(v), StartTxn, Reading(v));
  }

  lemma {:induction false} ScriptRuns(v: Value, i: nat)
    requires i <= 10
    ensures ValidRun(State(v, i), Script(v)[i..]) && Exec(State(v, i), Script(v)[i..]) == State(v, 10)
    decreases 10 - i
  {
    if i < 10 {
      match i {
        case 0 => Leads0(v); case 1 => Leads1(v); case 2 => Leads2(v); case 3 => Leads3(v); case 4 => Leads4(v);
        case 5 => Leads5(v); case 6 => Leads6(v); case 7 => Leads7(v); case 8 => Leads8(v); case 9 => Leads9(v);
      }
      assert Leads(v, i);
      ScriptRuns(v, i + 1);
      assert Script(v)[i..][0] == Script(v)[i] && Script(v)[i..][1..] == Script(v)[i + 1..];
    }
  }

  /** A transaction deletes a published key and commits; a later one still reads the old value,
      because a visible tombstone sends the lookup on to the tables. */
  lemma DeletedValueIsReadAgain(v: Value)
    ensures ValidRun(InitWorld(2), Script(v))
    ensures
      var w := Exec(InitWorld(2), Script(v));
      && 5 in w.db.xips && 5 in w.spec.txns
      && SpecRead(w.spec, 5, 0) == None && LayeredRead(w.db, w.db, w.db, 5, 0) == Some(v)
  {
    hide State, Script, ValidRun, Exec, Reading, SpecRead, LayeredRead;
    ScriptRuns(v, 0);
    assert Script(v)[0..] == Script(v);
    Named(v);
    ReadsDeleted(v);
  }

  lemma ReadsDeleted(v: Value)
    ensures
      var w := Reading(v);
      && 5 in w.db.xips && 5 in w.spec.txns
      && SpecRead(w.spec, 5, 0) == None && LayeredRead(w.db, w.db, w.db, 5, 0) == Some(v)
  {
    var w := Reading(v);
    NewestIs(HistOf(w.spec, 0), 5, 4);
    ImmReadLive(w.db.imm, w.db.counter, 0, 3);
  }

  /** The collection claim is a 32-bit field: garbage collection of a flush takes what the flush has collected,
      the whole chain or all from the claimed node on, exactly when the flush's timestamp fits. */
  lemma ReclaimsOwnIff(ch: Versions, m: nat)
    requires Collectable(ch, m)
    ensures
      var i, marked := FirstOld(ch, 0, m), Mark(ch, m);
      (if i == 0 then Removable(marked, m) else Truncate(marked, m) == marked[..i]) <==> m < U32
  {
    ViewSteps.FirstOldMark(ch, m, m);
    var i, marked := FirstOld(ch, 0, m), Mark(ch, m);
    if i > 0 {
      ViewSteps.FirstOldIs(marked, m, i);
      assert FirstOld(marked, 1, m) == i;
      assert |marked[..i]| < |marked|;
    }
  }
}

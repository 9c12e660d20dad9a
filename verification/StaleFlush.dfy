/** A flush asks for the least running transaction and registers under it, in two steps. A run shows what can
    come of it when a younger flush publishes in between. */
module StaleFlush {
  import opened Options
  import opened Chain
  import opened Protocol
  import opened Invariant
  import opened Preservation
  import opened Runs
  import opened Theorems
  import opened Tombstones

  // ----- what is left of the answer -----

  lemma LowStep(w: World, e: Event, m: nat)
    requires TxnInv(w) && Enabled(w.db, e) && Low(w.db, m)
    ensures Low(Step(w, e).db, m)
  {
    TimeSteps(w, e);
  }

  /** Whatever happens after asking, all transactions that run started no earlier than the answer. */
  lemma {:induction false} AskedStaysLow(w: World, es: seq<Event>, m: nat)
    requires Inv(w) && ValidRun(w, es) && Low(w.db, m)
    ensures Low(Exec(w, es).db, m)
    decreases |es|
  {
    if es != [] {
      StepKeeps(w, es[0]);
      LowStep(w, es[0], m);
      AskedStaysLow(Step(w, es[0]), es[1..], m);
    }
  }

  // ----- the harm -----

  function V(b: Value, claim: nat): Node { Node(Stamp.Commit(4), claim, Some(b)) }

  function Txns(a: Value, b: Value, phase: Phase): map<nat, Txn> {
    map[1 := Writer(a, Committed(2)), 3 := Txn(phase, map[0 := Some(b)])]
  }

  function Hist(a: Value, b: Value): map<Key, map<nat, Version>> {
    map[0 := map[2 := Version(Some(a), 1), 4 := Version(Some(b), 3)]]
  }

  function NewTable(b: Value): Table { map[0 := Entry(4, Some(b))] }

  /** Key 0 written at 2 and, by transaction 3, at 4; transaction 5 runs. */
  function Both(a: Value, b: Value, d: Db): World {
    World(d, Spec(6, Txns(a, b, Committed(4))[5 := Txn(Active, map[])], Hist(a, b)), {}, map[], 0, map[])
  }

  /** The same after flush 5 has published. */
  function Passed(a: Value, b: Value, d: Db): World {
    World(d, Spec(6, Txns(a, b, Committed(4))[5 := Txn(Active, map[])], Hist(a, b)), {5}, map[0 := 4], 5, map[0 := 5])
  }

  function Db5(mem: map<Key, Versions>, collecting: map<nat, Flush>, imm: map<nat, Table>, sst: Table, minXip: nat): Db {
    Db(6, {5}, map[5 := {}], mem, collecting, imm, sst, minXip, 2)
  }

  function Chain2(a: Value, b: Value, claim4: nat, claim2: nat): map<Key, Versions> {
    map[0 := [V(b, claim4), Head(a, claim2)]]
  }

  function S4(a: Value): World { BeforeFlush(a, [Head(a, 0)], map[]) }

  function S5(a: Value, b: Value): World {
    World(Db(4, {3}, map[3 := {0}], map[0 := [Node(Uncommitted(3), 0, Some(b)), Head(a, 0)]], map[], map[], map[], 0, 2),
          Spec(4, Txns(a, b, Active), map[0 := Written(a)]), {}, map[], 0, map[])
  }

  function S6(a: Value, b: Value): World {
    World(Db(5, {}, map[], Chain2(a, b, 0, 0), map[], map[], map[], 0, 2),
          Spec(5, Txns(a, b, Committed(4)), Hist(a, b)), {}, map[], 0, map[])
  }

  function S7(a: Value, b: Value): World { Both(a, b, Db5(Chain2(a, b, 0, 0), map[], map[], map[], 0)) }

  function S8(a: Value, b: Value): World {
    Both(a, b, Db5(Chain2(a, b, 0, 0), map[5 := Flush({0}, map[])], map[], map[], 0))
  }

  function S9(a: Value, b: Value): World {
    Both(a, b, Db5(Chain2(a, b, 5, 0), map[5 := Flush({}, NewTable(b))], map[], map[], 0))
  }

  function S10(a: Value, b: Value): World {
    Passed(a, b, Db5(Chain2(a, b, 5, 0), map[], map[5 := NewTable(b)], map[], 0))
  }

  function S11(a: Value, b: Value): World {
    Passed(a, b, Db5(Chain2(a, b, 5, 0), map[3 := Flush({0}, map[])], map[5 := NewTable(b)], map[], 0))
  }

  function S12(a: Value, b: Value): World {
    Passed(a, b, Db5(Chain2(a, b, 5, 3), map[3 := Flush({}, Collected(a))], map[5 := NewTable(b)], map[], 0))
  }

  function S13(a: Value, b: Value): World {
    Passed(a, b, Db5(map[], map[3 := Flush({}, Collected(a))], map[5 := NewTable(b)], map[], 0))
  }

  function S14(a: Value, b: Value): World {
    Passed(a, b, Db5(map[], map[3 := Flush({}, Collected(a))], map[], NewTable(b), 5))
  }

  function S15(a: Value, b: Value): World {
    World(Db5(map[], map[], map[3 := Collected(a)], NewTable(b), 5),
          Spec(6, Txns(a, b, Committed(4))[5 := Txn(Active, map[])], Hist(a, b)), {5} + {3}, map[0 := 2], 3, map[0 := 5])
  }

  ghost predicate Goes(w: World, e: Event, w': World) {
    Enabled(w.db, e) && Step(w, e) == w'
  }

  lemma Goes5(a: Value, b: Value)
    ensures Goes(S4(a), WriteKey(3, 0, Some(b)), S5(a, b))
  {
    assert {} + {0} == {0};
    assert Push([Head(a, 0)], 3, Some(b)) == [Node(Uncommitted(3), 0, Some(b)), Head(a, 0)];
    assert S4(a).spec.txns[3 := Txn(Active, map[0 := Some(b)])] == Txns(a, b, Active);
  }

  lemma Stamps6(a: Value, b: Value)
    ensures StampMem(S5(a, b).db.mem, {0}, 3, 4) == Chain2(a, b, 0, 0)
  {
    assert StampAll([Node(Uncommitted(3), 0, Some(b)), Head(a, 0)], 3, 4) == [V(b, 0), Head(a, 0)];
  }

  lemma Extends6(a: Value, b: Value)
    ensures Extend(S5(a, b).spec, 3, map[0 := Some(b)]) == Hist(a, b)
  {
    var writes: map<Key, Option<Value>> := map[0 := Some(b)];
    assert S5(a, b).spec.hist.Keys + writes.Keys == {0};
    assert HistOf(S5(a, b).spec, 0) == Written(a);
  }

  lemma Goes6(a: Value, b: Value)
    ensures Goes(S5(a, b), CommitTxn(3), S6(a, b))
  {
    var w := S5(a, b);
    CommitIs(w, 3);
    Stamps6(a, b);
    Extends6(a, b);
    assert w.spec.txns[3].writes == map[0 := Some(b)];
    assert w.db.redo - {3} == map[] && w.db.xips - {3} == {};
    assert w.spec.txns[3 := Txn(Committed(4), map[0 := Some(b)])] == Txns(a, b, Committed(4));
  }

  lemma Goes7(a: Value, b: Value)
    ensures Goes(S6(a, b), StartTxn, S7(a, b))
  {
    assert {} + {5} == {5};
  }

  lemma Goes8(a: Value, b: Value)
    ensures Goes(S7(a, b), Register(5), S8(a, b))
  {
    assert Chain2(a, b, 0, 0).Keys == {0};
  }

  lemma Goes9(a: Value, b: Value)
    ensures Goes(S8(a, b), SnapshotKey(5, 0), S9(a, b))
  {
    var ch := [V(b, 0), Head(a, 0)];
    assert FirstOld(ch, 0, 5) == 0 && Mark(ch, 5) == [V(b, 5), Head(a, 0)];
    assert {0} - {0} == {};
  }

  lemma CanPublish10(a: Value, b: Value)
    ensures Enabled(S9(a, b).db, Publish(5))
  {
    assert S9(a, b).db.collecting.Keys == {5};
    assert |NewTable(b)| == |NewTable(b).Keys| == |{0}|;
  }

  lemma Publishes10(a: Value, b: Value)
    ensures PublishDb(S9(a, b).db, 5) == S10(a, b).db && S9(a, b).spec == S10(a, b).spec
    ensures Raise(map[], NewTable(b)) == map[0 := 4] && {} + {5} == {5} && NoteLive(map[], NewTable(b), 5) == map[0 := 5]
  {
    assert S9(a, b).db.collecting - {5} == map[];
  }

  lemma Goes10(a: Value, b: Value)
    ensures Goes(S9(a, b), Publish(5), S10(a, b))
  {
    CanPublish10(a, b);
    Publishes10(a, b);
  }

  lemma Goes11(a: Value, b: Value)
    ensures S10(a, b).(db := RegisterDb(S10(a, b).db, 3)) == S11(a, b)
    ensures Low(S10(a, b).db, 3) && 3 !in S10(a, b).db.collecting && !Unpassed(S10(a, b).db, 3)
  {
    assert Chain2(a, b, 5, 0).Keys == {0};
    assert 5 in S10(a, b).db.imm && S10(a, b).db.xips == {5};
  }

  lemma Marks12(a: Value, b: Value)
    ensures
      var ch := [V(b, 5), Head(a, 0)];
      FirstOld(ch, 0, 3) == 1 && Collectable(ch, 3) && Mark(ch, 3) == [V(b, 5), Head(a, 3)]
  {
    var ch := [V(b, 5), Head(a, 0)];
    assert !Old(ch[0], 3) && Old(ch[1], 3) && FirstOld(ch, 1, 3) == 1;
  }

  lemma Goes12(a: Value, b: Value)
    ensures Goes(S11(a, b), SnapshotKey(3, 0), S12(a, b))
  {
    Marks12(a, b);
    hide FirstOld, Collectable, Mark;
    assert {0} - {0} == {};
  }

  lemma Goes13(a: Value, b: Value)
    ensures Goes(S12(a, b), GcKey(5, 0), S13(a, b))
  {
    var d := S12(a, b).db;
    assert Removable(d.mem[0], 5) && d.mem - {0} == map[];
    assert {} - {0} == {} && DropTodo(d.collecting, 0) == d.collecting;
  }

  lemma Goes14(a: Value, b: Value)
    ensures Goes(S13(a, b), Install(5), S14(a, b))
  {
    var d := S13(a, b).db;
    assert d.imm.Keys == {5} && d.imm - {5} == map[];
    assert LiveEntries(NewTable(b)) == NewTable(b) && map[] + NewTable(b) == NewTable(b);
  }

  lemma CanPublish15(a: Value, b: Value)
    ensures Enabled(S14(a, b).db, Publish(3))
  {
    assert S14(a, b).db.collecting.Keys == {3};
    assert |Collected(a)| == |Collected(a).Keys| == |{0}|;
  }

  lemma Publishes15(a: Value, b: Value)
    ensures PublishDb(S14(a, b).db, 3) == S15(a, b).db && S14(a, b).spec == S15(a, b).spec
    ensures Raise(map[0 := 4], Collected(a)) == map[0 := 2] && NoteLive(map[0 := 5], Collected(a), 3) == map[0 := 5]
  {
    assert S14(a, b).db.collecting - {3} == map[];
  }

  lemma Goes15(a: Value, b: Value)
    ensures Goes(S14(a, b), Publish(3), S15(a, b))
  {
    CanPublish15(a, b);
    Publishes15(a, b);
  }

  lemma RunCons(w: World, e: Event, w': World, es: seq<Event>)
    requires Goes(w, e, w') && ValidRun(w', es)
    ensures ValidRun(w, [e] + es) && Exec(w, [e] + es) == Exec(w', es)
  {
    assert ([e] + es)[1..] == es;
  }

  lemma NothingRuns(w: World)
    ensures ValidRun(w, []) && Exec(w, []) == w
  {
  }

  function Asking(a: Value): seq<Event> {
    [StartTxn] + ([WriteKey(1, 0, Some(a))] + ([CommitTxn(1)] + ([StartTxn] + [])))
  }

  function Between(b: Value): seq<Event> {
    [WriteKey(3, 0, Some(b))] + ([CommitTxn(3)] + ([StartTxn] + ([Register(5)] + ([SnapshotKey(5, 0)] + ([Publish(5)] + [])))))
  }

  function After(): seq<Event> {
    [SnapshotKey(3, 0)] + ([GcKey(5, 0)] + ([Install(5)] + ([Publish(3)] + [])))
  }

  lemma AskingRuns(a: Value)
    ensures ValidRun(InitWorld(2), Asking(a)) && Exec(InitWorld(2), Asking(a)) == S4(a)
  {
    hide ValidRun, Exec, Step, Enabled;
    Leads0(a);
    Leads1(a);
    Leads2(a);
    Leads3(a);
    NothingRuns(S4(a));
    RunCons(State(a, 3), StartTxn, S4(a), []);
    RunCons(State(a, 2), CommitTxn(1), State(a, 3), [StartTxn] + []);
    RunCons(State(a, 1), WriteKey(1, 0, Some(a)), State(a, 2), [CommitTxn(1)] + ([StartTxn] + []));
    RunCons(State(a, 0), StartTxn, State(a, 1), [WriteKey(1, 0, Some(a))] + ([CommitTxn(1)] + ([StartTxn] + [])));
  }

  lemma BetweenRuns(a: Value, b: Value)
    ensures ValidRun(S4(a), Between(b)) && Exec(S4(a), Between(b)) == S10(a, b)
  {
    hide ValidRun, Exec, Goes, S4, S5, S6, S7, S8, S9, S10;
    Goes5(a, b);
    Goes6(a, b);
    Goes7(a, b);
    Goes8(a, b);
    Goes9(a, b);
    Goes10(a, b);
    var e5: seq<Event> := [Publish(5)] + [];
    var e4 := [SnapshotKey(5, 0)] + e5;
    var e3 := [Register(5)] + e4;
    var e2 := [StartTxn] + e3;
    NothingRuns(S10(a, b));
    RunCons(S9(a, b), Publish(5), S10(a, b), []);
    RunCons(S8(a, b), SnapshotKey(5, 0), S9(a, b), e5);
    RunCons(S7(a, b), Register(5), S8(a, b), e4);
    RunCons(S6(a, b), StartTxn, S7(a, b), e3);
    RunCons(S5(a, b), CommitTxn(3), S6(a, b), e2);
    RunCons(S4(a), WriteKey(3, 0, Some(b)), S5(a, b), [CommitTxn(3)] + e2);
  }

  lemma AfterRuns(a: Value, b: Value)
    ensures ValidRun(S11(a, b), After()) && Exec(S11(a, b), After()) == S15(a, b)
  {
    hide ValidRun, Exec, Goes, S11, S12, S13, S14, S15;
    Goes12(a, b);
    Goes13(a, b);
    Goes14(a, b);
    Goes15(a, b);
    var e3: seq<Event> := [Publish(3)] + [];
    var e2 := [Install(5)] + e3;
    NothingRuns(S15(a, b));
    RunCons(S14(a, b), Publish(3), S15(a, b), []);
    RunCons(S13(a, b), Install(5), S14(a, b), e3);
    RunCons(S12(a, b), GcKey(5, 0), S13(a, b), e2);
    RunCons(S11(a, b), SnapshotKey(3, 0), S12(a, b), [GcKey(5, 0)] + e2);
  }

  lemma ReadsOld(a: Value, b: Value)
    ensures
      var w := S15(a, b);
      && 5 in w.db.xips && SpecRead(w.spec, 5, 0) == Some(b) && LayeredRead(w.db, w.db, w.db, 5, 0) == Some(a)
      && Enabled(w.db, Install(3)) && 3 < w.db.minXip
  {
    var w := S15(a, b);
    NewestIs(HistOf(w.spec, 0), 5, 4);
    ImmReadLive(w.db.imm, w.db.counter, 0, 3);
    assert w.db.imm.Keys == {3};
  }

  /** A flush asks and is answered 3. Before it registers, flush 5 registers, collects and publishes the newer
      version of a key. The late flush then collects the older version, publishes it after the newer one has
      been installed, and a running transaction reads the older value; the install that follows would take
      `min_xip` back. */
  lemma StaleFlushIsRead(a: Value, b: Value)
    ensures ValidRun(InitWorld(2), Asking(a))
    ensures
      var w1 := Exec(InitWorld(2), Asking(a));
      && IsMin(3, w1.db.xips) && ValidRun(w1, Between(b))
      && var w2 := Exec(w1, Between(b));
         var w3 := w2.(db := RegisterDb(w2.db, 3));
         && Low(w2.db, 3) && 3 !in w2.db.collecting && ValidRun(w3, After())
         && var w4 := Exec(w3, After());
            && 5 in w4.db.xips && 5 in w4.spec.txns
            && SpecRead(w4.spec, 5, 0) == Some(b) && LayeredRead(w4.db, w4.db, w4.db, 5, 0) == Some(a)
            && Enabled(w4.db, Install(3)) && 3 < w4.db.minXip
  {
    hide ValidRun, Exec, Asking, Between, After, S10, S11, S15, LayeredRead, SpecRead, Enabled, Unpassed, Low;
    AskingRuns(a);
    BetweenRuns(a, b);
    Goes11(a, b);
    AfterRuns(a, b);
    ReadsOld(a, b);
    assert 5 in S15(a, b).spec.txns by { FiveRuns(a, b); }
  }

  lemma FiveRuns(a: Value, b: Value)
    ensures 5 in S15(a, b).spec.txns
  {
  }
}

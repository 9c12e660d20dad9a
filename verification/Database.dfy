/** The store as an object. Each method is one atomic step of the program and is proved to be the step of
    the state machine of that name; the methods of a flush are the steps its thread takes. Registering is
    that step when no younger flush has published since the flush asked, and always when both are one. */
module Database {
  import opened Options
  import opened Chain
  import opened Protocol
  import opened MemTable
  import opened TransactionManager
  import opened Invariant
  import opened Preservation

  lemma StampedIs(t: map<Key, Versions>, mem: map<Key, Versions>, keys: set<Key>, s: nat, c: nat)
    requires t.Keys == mem.Keys && forall k :: k in t ==> t[k] == if k in keys then StampAll(mem[k], s, c) else mem[k]
    ensures t == StampMem(mem, keys, s, c)
  {
    var m := StampMem(mem, keys, s, c);
    assert m.Keys == mem.Keys;
    assert forall k :: k in t ==> t[k] == m[k];
  }

  /** A key in a redo list has an uncommitted node of that transaction at its head. */
  ghost predicate HeadIs(table: map<Key, Versions>, s: nat, k: Key) {
    k in table && table[k] != [] && table[k][0].stamp == Uncommitted(s)
  }

  ghost predicate RedoOk(redo: map<nat, set<Key>>, table: map<Key, Versions>) {
    forall s, k :: s in redo && k in redo[s] ==> HeadIs(table, s, k)
  }

  /** A write that meets no conflict takes the head from nobody. */
  lemma WriteRedo(redo: map<nat, set<Key>>, table: map<Key, Versions>, s: nat, k: Key, rec: Option<Value>, ch: Versions)
    requires RedoOk(redo, table) && ch == (if k in table then table[k] else []) && !Conflict(ch, s)
    ensures RedoOk(redo[s := (if s in redo then redo[s] else {}) + {k}], table[k := Push(ch, s, rec)])
  {
    var redo', table' := redo[s := (if s in redo then redo[s] else {}) + {k}], table[k := Push(ch, s, rec)];
    forall s', k' | s' in redo' && k' in redo'[s'] ensures HeadIs(table', s', k') {
      if s' != s || k' != k { assert HeadIs(table, s', k'); }
    }
  }

  /** Stamping the nodes of `s` leaves the heads of all others. */
  lemma StampRedoOk(redo: map<nat, set<Key>>, table: map<Key, Versions>, table': map<Key, Versions>, s: nat, c: nat)
    requires RedoOk(redo, table) && table'.Keys == table.Keys
    requires forall k :: k in table' ==> table'[k] == table[k] || table'[k] == StampAll(table[k], s, c)
    ensures RedoOk(redo - {s}, table')
  {
    forall s', k | s' in redo - {s} && k in redo[s'] ensures HeadIs(table', s', k) {
      assert HeadIs(table, s', k);
    }
  }

  /** What is at the head of a chain stays there when the chain is marked, cut below, or left by others. */
  lemma SameHeads(redo: map<nat, set<Key>>, table: map<Key, Versions>, table': map<Key, Versions>)
    requires RedoOk(redo, table)
    requires forall s, k :: s in redo && k in redo[s] ==>
      k in table' && table'[k] != [] && table'[k][0].stamp == table[k][0].stamp
    ensures RedoOk(redo, table')
  {
    forall s, k | s in redo && k in redo[s] ensures HeadIs(table', s, k) { assert HeadIs(table, s, k); }
  }

  /** The program's way of committing, to the new memtable `table`, is the step's. */
  lemma CommitDone(d: Db, s: nat, table: map<Key, Versions>)
    requires RedoOk(d.redo, d.mem) && s in d.xips && table.Keys == d.mem.Keys
    requires forall k :: k in table ==> table[k] == if k in RedoOf(d, s) then StampAll(d.mem[k], s, d.counter) else d.mem[k]
    ensures Enabled(d, CommitTxn(s)) && RedoOk(d.redo - {s}, table)
    ensures Completed(d, s, table) == Apply(d, CommitTxn(s))
  {
    StampRedoOk(d.redo, d.mem, table, s, d.counter);
    StampedIs(table, d.mem, RedoOf(d, s), s, d.counter);
  }

  function Completed(d: Db, s: nat, table: map<Key, Versions>): Db {
    d.(counter := d.counter + 1, xips := d.xips - {s}, redo := d.redo - {s}, mem := table)
  }

  lemma RedoOfIs(d: Db, s: nat)
    ensures RedoOf(d, s) == if s in d.redo then d.redo[s] else {}
  {
  }

  lemma RedoInTable(redo: map<nat, set<Key>>, table: map<Key, Versions>, s: nat)
    requires RedoOk(redo, table)
    ensures (if s in redo then redo[s] else {}) <= table.Keys
  {
    if s in redo {
      forall k | k in redo[s] ensures k in table { assert HeadIs(table, s, k); }
    }
  }

  /** A transaction without writes. */
  lemma StartRedo(redo: map<nat, set<Key>>, table: map<Key, Versions>, s: nat)
    requires RedoOk(redo, table)
    ensures RedoOk(redo[s := {}], table)
  {
  }

  /** Rolling back a key takes the head from nobody else. */
  lemma RollbackRedo(redo: map<nat, set<Key>>, table: map<Key, Versions>, s: nat, k: Key)
    requires RedoOk(redo, table) && s in redo && k in redo[s]
    ensures k in table && RedoOk(redo[s := redo[s] - {k}], table[k := Unwind(table[k], s)])
  {
    assert HeadIs(table, s, k);
    var redo', table' := redo[s := redo[s] - {k}], table[k := Unwind(table[k], s)];
    forall s', k' | s' in redo' && k' in redo'[s'] ensures HeadIs(table', s', k') { assert HeadIs(table, s', k'); }
  }

  /** What garbage collection leaves of a chain whose head is uncommitted begins with that head. */
  lemma GcHead(ch: Versions, m: nat, s: nat)
    requires ch != [] && ch[0].stamp == Uncommitted(s)
    ensures !Removable(ch, m) && Truncate(ch, m) != [] && Truncate(ch, m)[0] == ch[0]
  {
  }

  class Database {
    const mem: HashMemTable
    const txns: TransactionManager
    const writeBufferSize: nat
    var redo: map<nat, set<Key>>         // the redo lists of the live transaction objects
    var collecting: map<nat, Flush>      // the collect set, with the tables its threads are filling
    var imm: map<nat, Table>
    var sst: Table
    var minXip: nat

    ghost predicate Valid()
      reads this, mem, txns
    {
      && mem.Valid() && txns.Valid() && (forall m :: m in imm || m in collecting ==> m < txns.timestampCounter)
      && RedoOk(redo, mem.table)
    }

    function Abs(): Db
      reads this, mem, txns
    {
      Db(txns.timestampCounter, txns.xips, redo, mem.table, collecting, imm, sst, minXip, writeBufferSize)
    }

    constructor (writeBufferSize: nat)
      ensures Valid() && Abs() == Init(writeBufferSize)
      ensures fresh(mem) && fresh(txns)
    {
      mem := new HashMemTable();
      txns := new TransactionManager();
      this.writeBufferSize := writeBufferSize;
      redo, collecting, imm, sst, minXip := map[], map[], map[], map[], 0;
    }

    // ----- transactions -----

    method StartTransaction() returns (start: nat)
      requires Valid()
      modifies this, txns
      ensures Valid() && start == old(Abs()).counter && Abs() == Apply(old(Abs()), StartTxn)
    {
      start := txns.StartTransaction();
      StartRedo(redo, mem.table, start);
      redo := redo[start := {}];
    }

    /** Search the layers below the memtable. */
    method GetFromStorage(key: Key) returns (r: Option<Value>)
      requires Valid()
      ensures r ==
        var fromImm := ImmRead(imm, txns.timestampCounter, key);
        if fromImm.Some? then fromImm else SstRead(Abs(), key)
    {
      var rest: set<nat> := imm.Keys;
      while rest != {}
        invariant rest <= imm.Keys
        invariant forall m, m' :: m in rest && m' in imm && m' !in rest ==> m < m'
        invariant forall m :: m in imm && m !in rest ==> !Live(imm[m], key)
        decreases rest
      {
        var m := Last(rest);
        if key in imm[m] && imm[m][key].record.Some? {
          ImmReadLive(imm, txns.timestampCounter, key, m);
          return imm[m][key].record;
        }
        rest := rest - {m};
      }
      ImmReadNone(imm, txns.timestampCounter, key);
      if key in sst {
        return sst[key].record;
      }
      return None;
    }

    /** The layered lookup when nobody interrupts it. */
    method Get(start: nat, key: Key) returns (r: Option<Value>)
      requires Valid()
      ensures r == LayeredRead(Abs(), Abs(), Abs(), start, key)
    {
      r := mem.Get(start, key);
      if r.Some? {
        return;
      }
      r := GetFromStorage(key);
    }

    method Put(start: nat, key: Key, value: Value) returns (r: Result<bool>)
      requires Valid() && start in txns.xips
      modifies this, mem
      ensures Valid()
      ensures r == if Enabled(old(Abs()), WriteKey(start, key, Some(value))) then Ok(true) else Err(TransactionAborted)
      ensures r.Ok? ==> Abs() == Apply(old(Abs()), WriteKey(start, key, Some(value)))
      ensures r.Err? ==> Abs() == old(Abs())
    {
      ghost var ch, table := mem.At(key), mem.table;
      r := mem.Put(start, key, value);
      if r.Ok? {
        WriteRedo(redo, table, start, key, Some(value), ch);
        AddRedo(start, key);
      }
    }

    method AddRedo(start: nat, key: Key)
      modifies this`redo
      ensures redo == old(redo)[start := (if start in old(redo) then old(redo)[start] else {}) + {key}]
    {
      redo := redo[start := (if start in redo then redo[start] else {}) + {key}];
    }

    /** The first step of an update: when the memtable's head has a value, the new one is computed from it. False
        leaves all as it was and means that the memtable has nothing for the transaction to read. */
    method UpdateInMemory(start: nat, key: Key, f: Value -> Value) returns (r: Result<bool>)
      requires Valid() && start in txns.xips
      modifies this, mem
      ensures Valid()
      ensures r.Err? <==> Conflict(ChainOf(old(Abs()), key), start)
      ensures r.Err? ==> r.error == TransactionAborted
      ensures
        var read := MemRead(old(Abs()), start, key);
        && (r == Ok(true) ==> read.Some? && Enabled(old(Abs()), WriteKey(start, key, Some(f(read.value))))
                              && Abs() == Apply(old(Abs()), WriteKey(start, key, Some(f(read.value)))))
        && (r == Ok(false) ==> read.None?)
      ensures r != Ok(true) ==> Abs() == old(Abs())
    {
      ghost var ch, table := mem.At(key), mem.table;
      r := mem.Update(start, key, f);
      if r == Ok(true) {
        WriteRedo(redo, table, start, key, Some(f(ch[0].record.value)), ch);
        AddRedo(start, key);
      }
      if r.Ok? { HeadIsRead(ch, start); }
    }

    /** Read-modify-write, when nobody interrupts it: the new value is computed from what the transaction reads
        through all layers, and written like a put. */
    method Update(start: nat, key: Key, f: Value -> Value) returns (r: Result<bool>)
      requires Valid() && start in txns.xips
      modifies this, mem
      ensures Valid()
      ensures
        var read := LayeredRead(old(Abs()), old(Abs()), old(Abs()), start, key);
        && (r == Ok(true) ==> read.Some? && Enabled(old(Abs()), WriteKey(start, key, Some(f(read.value))))
                              && Abs() == Apply(old(Abs()), WriteKey(start, key, Some(f(read.value)))))
        && (r == Ok(false) <==> read.None? && !Conflict(ChainOf(old(Abs()), key), start))
        && (r.Err? <==> Conflict(ChainOf(old(Abs()), key), start))
      ensures r.Err? ==> r.error == TransactionAborted
      ensures r != Ok(true) ==> Abs() == old(Abs())
    {
      r := UpdateInMemory(start, key, f);
      if r.Err? {
        return;
      }
      if r.value {
        assert r == Ok(true);
        return;
      }
      var stored := GetFromStorage(key);
      if stored.None? {
        return Ok(false);
      }
      r := Put(start, key, f(stored.value));
    }

    method Delete(start: nat, key: Key) returns (r: Result<bool>)
      requires Valid() && start in txns.xips
      modifies this, mem
      ensures Valid()
      ensures r == Ok(true) <==> Enabled(old(Abs()), WriteKey(start, key, None))
      ensures r == Ok(true) ==> Abs() == Apply(old(Abs()), WriteKey(start, key, None))
      ensures r.Err? <==> Conflict(ChainOf(old(Abs()), key), start)
      ensures r != Ok(true) ==> Abs() == old(Abs())
    {
      ghost var ch, table := mem.At(key), mem.table;
      r := mem.Delete(start, key);
      if r == Ok(true) {
        WriteRedo(redo, table, start, key, None, ch);
        AddRedo(start, key);
      }
    }

    /** Commit: draw the commit timestamp, stamp every redo node, leave the running set. */
    method StampAndComplete(start: nat, ghost keys: set<Key>)
      requires mem.Valid() && txns.Valid() && start in txns.xips
      requires keys == RedoOf(Abs(), start) && keys <= mem.table.Keys
      modifies this`redo, mem, txns
      ensures mem.Valid() && txns.Valid() && mem.table.Keys == old(mem.table).Keys
      ensures forall k :: k in mem.table ==>
        mem.table[k] == if k in keys then StampAll(old(mem.table)[k], start, old(txns.timestampCounter)) else old(mem.table)[k]
      ensures Abs() == Completed(old(Abs()), start, Abs().mem)
    {
      var commit := txns.NextCommitTimestamp();
      StampRedo(start, commit, keys);
      txns.Complete(start);
      redo := redo - {start};
    }

    method Commit(start: nat)
      requires Valid() && start in txns.xips
      modifies this, mem, txns
      ensures Valid() && Abs() == Apply(old(Abs()), CommitTxn(start))
    {
      hide RedoOk, StampAll, Apply, Enabled, RedoOf, HashMemTable.Valid, TransactionManager.Valid;
      ghost var d := Abs();
      RedoInTable(d.redo, d.mem, start);
      assert RedoOf(d, start) <= d.mem.Keys by { RedoOfIs(d, start); }
      StampAndComplete(start, RedoOf(d, start));
      CommitDone(d, start, Abs().mem);
    }

    /** Stamps every version that the redo list names with the commit timestamp. */
    method StampRedo(start: nat, commit: nat, ghost keys: set<Key>)
      requires mem.Valid() && keys == (if start in redo then redo[start] else {}) && keys <= mem.table.Keys
      modifies mem
      ensures mem.Valid() && mem.table.Keys == old(mem.table).Keys
      ensures forall k :: k in mem.table ==>
        mem.table[k] == if k in keys then StampAll(old(mem.table)[k], start, commit) else old(mem.table)[k]
    {
      var rest: set<Key> := if start in redo then redo[start] else {};
      while rest != {}
        invariant mem.Valid() && rest <= keys <= mem.table.Keys && mem.table.Keys == old(mem.table).Keys
        invariant forall k :: k in mem.table ==>
          mem.table[k] == if k in keys && k !in rest then StampAll(old(mem.table)[k], start, commit) else old(mem.table)[k]
        decreases rest
      {
        var key := NextEntry(rest);
        mem.StoreTimestamps(start, key, commit);
        rest := rest - {key};
      }
    }

    method Abort(start: nat)
      requires Valid() && start in txns.xips
      modifies txns
      ensures Valid() && Abs() == Apply(old(Abs()), AbortTxn(start))
    {
      txns.Complete(start);
    }

    method Rollback(start: nat, key: Key)
      requires Valid() && Enabled(Abs(), RollbackKey(start, key))
      modifies this, mem
      ensures Valid() && Abs() == Apply(old(Abs()), RollbackKey(start, key))
    {
      RollbackRedo(redo, mem.table, start, key);
      mem.Rollback(start, key);
      redo := redo[start := redo[start] - {key}];
    }

    // ----- the steps of a flush -----

    /** Joins the collect set, unless a flush of the same age is already in it. `minXip` was the least running
        transaction when the flush asked; when no younger flush has published since, this is the register step. */
    method RegisterFlush(minXip: nat) returns (registered: bool)
      requires Valid() && Low(Abs(), minXip)
      modifies this
      ensures Valid() && (registered <==> minXip !in old(collecting))
      ensures Abs() == if registered then RegisterDb(old(Abs()), minXip) else old(Abs())
      ensures registered && Unpassed(old(Abs()), minXip) ==>
        Enabled(old(Abs()), Register(minXip)) && Abs() == Apply(old(Abs()), Register(minXip))
    {
      if minXip in collecting {
        return false;
      }
      collecting := collecting[minXip := Flush(mem.table.Keys, map[])];
      return true;
    }

    /** Asks for the least running transaction and registers it in one step. With no transaction running, one
        is run for the purpose. In a reachable store this is the register step. */
    method StartFlush(ghost w: World) returns (m: Option<nat>)
      requires Valid() && Inv(w) && w.db == Abs() && txns.timestampCounter < U32
      modifies this, mem, txns
      ensures Valid()
      ensures
        var d := if old(txns.xips) == {} then Apply(Apply(old(Abs()), StartTxn), CommitTxn(old(Abs()).counter)) else old(Abs());
        if m.Some? then Enabled(d, Register(m.value)) && Abs() == Apply(d, Register(m.value)) else Abs() == d
    {
      var x := txns.MinXip();
      var minXip: nat;
      ghost var d := Abs();
      if x == None {
        minXip := StartTransaction();
        Commit(minXip);
        AloneRegister(w, minXip);
      } else {
        minXip := x.value;
        AtomicRegister(w, minXip);
      }
      var registered := RegisterFlush(minXip);
      m := if registered then Some(minXip) else None;
    }

    method CollectEntry(m: nat, key: Key)
      requires Valid() && Enabled(Abs(), SnapshotKey(m, key))
      modifies this, mem
      ensures Valid() && Abs() == Apply(old(Abs()), SnapshotKey(m, key))
    {
      ghost var table := mem.table;
      var e := mem.CollectEntry(m, key);
      SameHeads(redo, table, mem.table) by {
        forall s, k | s in redo && k in redo[s] ensures k in mem.table && mem.table[k] != [] && mem.table[k][0].stamp == table[k][0].stamp {
          assert HeadIs(table, s, k);
        }
      }
      var f := collecting[m].(todo := collecting[m].todo - {key});
      if e.Some? {
        f := f.(table := f.table[key := e.value]);
      }
      collecting := collecting[m := f];
    }

    /** After the snapshot: cancel when too little was collected, wait while an older flush is still
        collecting, publish otherwise. */
    method FinishCollect(m: nat) returns (published: Option<bool>)
      requires Valid() && m in collecting && collecting[m].todo == {}
      modifies this
      ensures Valid()
      ensures published == Some(false) <==> Enabled(old(Abs()), Cancel(m))
      ensures published == Some(true) <==> Enabled(old(Abs()), Publish(m))
      ensures published == Some(false) ==> Abs() == Apply(old(Abs()), Cancel(m))
      ensures published == Some(true) ==> Abs() == Apply(old(Abs()), Publish(m))
      ensures published == None ==> Abs() == old(Abs())
    {
      hide RedoOk;
      var table := collecting[m].table;
      if |table| < writeBufferSize / 2 {
        collecting := collecting - {m};
        return Some(false);
      }
      var minCollect := First(collecting.Keys);
      if minCollect != m {
        return None;
      }
      collecting := collecting - {m};
      imm := imm[m := table];
      return Some(true);
    }

    method GcEntry(m: nat, key: Key)
      requires Valid() && Enabled(Abs(), GcKey(m, key))
      modifies this, mem
      ensures Valid() && Abs() == Apply(old(Abs()), GcKey(m, key))
    {
      ghost var table := mem.table;
      mem.GcEntry(m, key);
      SameHeads(redo, table, mem.table) by {
        forall s, k | s in redo && k in redo[s] ensures k in mem.table && mem.table[k] != [] && mem.table[k][0].stamp == table[k][0].stamp {
          assert HeadIs(table, s, k);
          if k == key { GcHead(table[key], m, s); }
        }
      }
      if key !in mem.table {
        collecting := DropTodo(collecting, key);
      }
    }

    /** Install the table of the oldest published flush. */
    method InstallLevel0(m: nat)
      requires Valid() && IsMin(m, imm.Keys)
      modifies this
      ensures Valid() && Abs() == Apply(old(Abs()), Install(m))
    {
      hide RedoOk, LiveEntries, Apply, Enabled, HashMemTable.Valid, TransactionManager.Valid;
      InstallIs(Abs(), m);
      sst := sst + LiveEntries(imm[m]);
      imm := imm - {m};
      minXip := m;
    }
  }

  lemma InstallIs(d: Db, m: nat)
    requires IsMin(m, d.imm.Keys)
    ensures Enabled(d, Install(m))
    ensures Apply(d, Install(m)) == d.(imm := d.imm - {m}, sst := d.sst + LiveEntries(d.imm[m]), minXip := m)
  {
  }

  /** A transaction that meets no conflict reads the head. */
  lemma HeadIsRead(ch: Versions, start: nat)
    requires !Conflict(ch, start)
    ensures ChainValue(ch, start) == if ch == [] then None else ch[0].record
  {
    if ch != [] { assert Visible(ch[0], start) && FirstVisible(ch, 0, start) == 0; }
  }
}

/**
 The store as a state machine. `Db` is what the program keeps: the transaction manager's counter and
 in-progress set, the memtable, the flushes that are collecting, the immutable tables and the lookup
 table that the sstables amount to. `Spec` is a plain multiversion history. One event drives both;
 each event is one atomic step of the program.
 */
module Protocol {
  import opened Options
  import opened Chain

  /** `ver` is the commit timestamp of the collected version. The program drops it; it is
      carried here so that properties can speak of it, and no lookup depends on it. */
  datatype Entry = Entry(ver: nat, record: Option<Value>)

  type Table = map<Key, Entry>

  /** A flush between its registration and its publication or cancellation. `todo` are the
      memtable entries its snapshot has still to visit. */
  datatype Flush = Flush(todo: set<Key>, table: Table)

  datatype Db = Db(
    counter: nat,
    xips: set<nat>,
    redo: map<nat, set<Key>>,    // keys with a redo node, per transaction that is running or rolling back
    mem: map<Key, Versions>,
    collecting: map<nat, Flush>, // the collect set, with the work of each member
    imm: map<nat, Table>,
    sst: Table,
    minXip: nat,                 // of the version set: the last installed flush
    writeBufferSize: nat         // the option of that name
  )

  datatype Event =
    | StartTxn
    | WriteKey(start: nat, key: Key, record: Option<Value>)
    | CommitTxn(start: nat)
    | AbortTxn(start: nat)
    | RollbackKey(start: nat, key: Key)
    | Register(minXip: nat)
    | SnapshotKey(minXip: nat, key: Key)
    | Cancel(minXip: nat)
    | Publish(minXip: nat)
    | GcKey(minXip: nat, key: Key)
    | Install(minXip: nat)

  function Init(writeBufferSize: nat): Db {
    Db(1, {}, map[], map[], map[], map[], map[], 0, writeBufferSize)
  }

  function ChainOf(d: Db, k: Key): Versions {
    if k in d.mem then d.mem[k] else []
  }

  function RedoOf(d: Db, s: nat): set<Key> {
    if s in d.redo then d.redo[s] else {}
  }

  // ----- guards: when the program takes the step -----

  /** What is left of `m` having been the least running transaction when the flush asked for it: all that
      run now have started since, or are that one. */
  predicate Low(d: Db, m: nat) {
    0 < m < d.counter && m < U32 && forall x :: x in d.xips ==> m <= x
  }

  /** No younger flush has published. The program does not check this; it is sure only when asking for the
      least running transaction and registering are one step. */
  predicate Unpassed(d: Db, m: nat) {
    d.minXip <= m && forall i :: i in d.imm ==> i <= m
  }

  predicate Enabled(d: Db, e: Event) {
    match e
    case StartTxn => true
    case WriteKey(s, k, rec) =>
      // deletes are refused when the head is not a live value
      s in d.xips && !Conflict(ChainOf(d, k), s) &&
      (rec.None? ==> ChainOf(d, k) != [] && ChainOf(d, k)[0].record.Some?)
    case CommitTxn(s) => s in d.xips
    case AbortTxn(s) => s in d.xips
    case RollbackKey(s, k) => s in d.redo && s !in d.xips && k in d.redo[s]
    case Register(m) => Low(d, m) && m !in d.collecting && Unpassed(d, m)
    case SnapshotKey(m, k) => m in d.collecting && k in d.mem
    case Cancel(m) =>
      m in d.collecting && d.collecting[m].todo == {} && |d.collecting[m].table| < d.writeBufferSize / 2
    case Publish(m) =>
      IsMin(m, d.collecting.Keys) && d.collecting[m].todo == {} && |d.collecting[m].table| >= d.writeBufferSize / 2
    case GcKey(m, k) => m in d.imm && k in d.mem
    case Install(m) => IsMin(m, d.imm.Keys)
  }

  // ----- effects -----

  function StampMem(mem: map<Key, Versions>, keys: set<Key>, s: nat, c: nat): map<Key, Versions> {
    map k | k in mem :: if k in keys then StampAll(mem[k], s, c) else mem[k]
  }

  function DropTodo(collecting: map<nat, Flush>, k: Key): map<nat, Flush> {
    map m | m in collecting :: collecting[m].(todo := collecting[m].todo - {k})
  }

  function RegisterDb(d: Db, m: nat): Db {
    d.(collecting := d.collecting[m := Flush(d.mem.Keys, map[])])
  }

  function SnapshotDb(d: Db, m: nat, k: Key): Db
    requires m in d.collecting && k in d.mem
  {
    var ch := d.mem[k];
    var f := d.collecting[m].(todo := d.collecting[m].todo - {k});
    if Collectable(ch, m) then
      var n := ch[FirstOld(ch, 0, m)];
      d.(mem := d.mem[k := Mark(ch, m)],
         collecting := d.collecting[m := f.(table := f.table[k := Entry(n.stamp.ts, n.record)])])
    else
      d.(collecting := d.collecting[m := f])
  }

  function PublishDb(d: Db, m: nat): Db
    requires m in d.collecting
  {
    d.(collecting := d.collecting - {m}, imm := d.imm[m := d.collecting[m].table])
  }

  function GcDb(d: Db, m: nat, k: Key): Db
    requires k in d.mem
  {
    var ch := d.mem[k];
    if ch == [] then d
    else if Removable(ch, m) then d.(mem := d.mem - {k}, collecting := DropTodo(d.collecting, k))
    else d.(mem := d.mem[k := Truncate(ch, m)])
  }

  /** Building a level-0 table drops tombstones, and the lookups search it before older tables. */
  function LiveEntries(t: Table): (r: Table)
  {
    map k | k in t && t[k].record.Some? :: t[k]
  }

  function Apply(d: Db, e: Event): Db
    requires Enabled(d, e)
  {
    match e
    case StartTxn =>
      d.(counter := d.counter + 1, xips := d.xips + {d.counter}, redo := d.redo[d.counter := {}])
    case WriteKey(s, k, rec) =>
      d.(mem := d.mem[k := Push(ChainOf(d, k), s, rec)], redo := d.redo[s := RedoOf(d, s) + {k}])
    case CommitTxn(s) =>
      d.(counter := d.counter + 1, xips := d.xips - {s}, redo := d.redo - {s},
         mem := StampMem(d.mem, RedoOf(d, s), s, d.counter))
    case AbortTxn(s) => d.(xips := d.xips - {s})
    case RollbackKey(s, k) =>
      d.(redo := d.redo[s := RedoOf(d, s) - {k}],
         mem := if k in d.mem then d.mem[k := Unwind(d.mem[k], s)] else d.mem)
    case Register(m) => RegisterDb(d, m)
    case SnapshotKey(m, k) => SnapshotDb(d, m, k)
    case Cancel(m) => d.(collecting := d.collecting - {m})
    case Publish(m) => PublishDb(d, m)
    case GcKey(m, k) => GcDb(d, m, k)
    case Install(m) => d.(imm := d.imm - {m}, sst := d.sst + LiveEntries(d.imm[m]), minXip := m)
  }

  // ----- the layered lookup -----

  function MemRead(d: Db, s: nat, k: Key): Option<Value> {
    ChainValue(ChainOf(d, k), s)
  }

  /** The table has a value, not a tombstone, for the key. */
  predicate Live(t: Table, k: Key) {
    k in t && t[k].record.Some?
  }

  /** Immutable tables from the newest down; a tombstone reads as "not here". */
  function ImmRead(imm: map<nat, Table>, bound: nat, k: Key): Option<Value> {
    if bound in imm && Live(imm[bound], k) then imm[bound][k].record
    else if bound == 0 then None
    else ImmRead(imm, bound - 1, k)
  }

  /** The search stops at the newest table that has a value for the key. */
  lemma {:induction false} ImmReadLive(imm: map<nat, Table>, bound: nat, k: Key, m: nat)
    requires m <= bound && m in imm && Live(imm[m], k)
    requires forall m' :: m' in imm && m' > m ==> !Live(imm[m'], k)
    ensures ImmRead(imm, bound, k) == imm[m][k].record
    decreases bound
  {
    if m < bound { ImmReadLive(imm, bound - 1, k, m); }
  }

  lemma {:induction false} ImmReadNone(imm: map<nat, Table>, bound: nat, k: Key)
    requires forall m :: m in imm ==> !Live(imm[m], k)
    ensures ImmRead(imm, bound, k) == None
    decreases bound
  {
    if bound > 0 { ImmReadNone(imm, bound - 1, k); }
  }

  function SstRead(d: Db, k: Key): Option<Value> {
    if k in d.sst then d.sst[k].record else None
  }

  /** The lookup whose three layers are consulted in three, possibly different, states. */
  function LayeredRead(d1: Db, d2: Db, d3: Db, s: nat, k: Key): Option<Value> {
    if MemRead(d1, s, k).Some? then MemRead(d1, s, k)
    else if ImmRead(d2.imm, d2.counter, k).Some? then ImmRead(d2.imm, d2.counter, k)
    else SstRead(d3, k)
  }

  // ----- the specification: a multiversion history -----

  datatype Phase = Active | Committed(ts: nat) | Aborted

  datatype Txn = Txn(phase: Phase, writes: map<Key, Option<Value>>)

  datatype Version = Version(record: Option<Value>, writer: nat)

  datatype Spec = Spec(counter: nat, txns: map<nat, Txn>, hist: map<Key, map<nat, Version>>)

  function SpecInit(): Spec { Spec(1, map[], map[]) }

  function HistOf(sp: Spec, k: Key): map<nat, Version> {
    if k in sp.hist then sp.hist[k] else map[]
  }

  function Extend(sp: Spec, s: nat, writes: map<Key, Option<Value>>): map<Key, map<nat, Version>> {
    map k | k in sp.hist.Keys + writes.Keys ::
      if k in writes then HistOf(sp, k)[sp.counter := Version(writes[k], s)] else sp.hist[k]
  }

  predicate SpecActive(sp: Spec, s: nat) {
    s in sp.txns && sp.txns[s].phase.Active?
  }

  function SpecApply(sp: Spec, e: Event): Spec {
    match e
    case StartTxn =>
      sp.(counter := sp.counter + 1, txns := sp.txns[sp.counter := Txn(Active, map[])])
    case WriteKey(s, k, rec) =>
      if SpecActive(sp, s) then
        sp.(txns := sp.txns[s := sp.txns[s].(writes := sp.txns[s].writes[k := rec])])
      else sp
    case CommitTxn(s) =>
      if SpecActive(sp, s) then
        sp.(counter := sp.counter + 1,
            txns := sp.txns[s := sp.txns[s].(phase := Committed(sp.counter))],
            hist := Extend(sp, s, sp.txns[s].writes))
      else sp
    case AbortTxn(s) =>
      if SpecActive(sp, s) then sp.(txns := sp.txns[s := sp.txns[s].(phase := Aborted)]) else sp
    case _ => sp
  }

  /** The newest version committed at or before `s`. */
  function Newest(h: map<nat, Version>, s: nat): (r: Option<nat>)
    ensures r.Some? ==> r.value in h && r.value <= s && forall c :: c in h && c <= s ==> c <= r.value
    ensures r.None? ==> forall c :: c in h ==> c > s
  {
    if s in h then Some(s) else if s == 0 then None else Newest(h, s - 1)
  }

  /** A transaction reads its own last write, or else the newest version committed before it started. */
  function SpecRead(sp: Spec, s: nat, k: Key): Option<Value>
    requires s in sp.txns
  {
    if k in sp.txns[s].writes then sp.txns[s].writes[k]
    else
      var c := Newest(HistOf(sp, k), s);
      if c.None? then None else HistOf(sp, k)[c.value].record
  }
}

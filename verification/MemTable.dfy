/** The hash memtable: one version chain per key, changed in place. Each method is one atomic step on
    one entry, or the sequential walk over all entries. */
module MemTable {
  import opened Options
  import opened Chain
  import opened Protocol

  /** The table's iterator: some entry not visited yet. */
  method NextEntry(rest: set<Key>) returns (key: Key)
    requires rest != {}
    ensures key in rest
  {
    HasElement(rest);
    key :| key in rest;
  }

  class HashMemTable {
    var table: map<Key, Versions>
    var size: nat

    /** The entry counter agrees with the table. */
    ghost predicate Valid()
      reads this
    {
      size == |table.Keys|
    }

    function At(key: Key): Versions
      reads this
    {
      if key in table then table[key] else []
    }

    constructor ()
      ensures Valid() && table == map[]
    {
      table := map[];
      size := 0;
    }

    /** Walk the chain to the first version the transaction may see. */
    static method GetValue(ch: Versions, start: nat) returns (r: Option<Value>)
      ensures r == ChainValue(ch, start)
    {
      var i := 0;
      while i < |ch|
        invariant 0 <= i <= |ch|
        invariant forall j :: 0 <= j < i ==> !Visible(ch[j], start)
      {
        var skip := match ch[i].stamp
          case Commit(c) => c > start
          case Uncommitted(w) => w != start;
        if !skip {
          assert FirstVisible(ch, 0, start) == i;
          return ch[i].record;
        }
        i := i + 1;
      }
      return None;
    }

    method Get(start: nat, key: Key) returns (r: Option<Value>)
      ensures r == ChainValue(At(key), start)
    {
      if key !in table {
        return None;
      }
      r := GetValue(table[key], start);
    }

    static method CheckConflict(head: Node, start: nat) returns (r: bool)
      ensures forall ch: Versions :: ch != [] && ch[0] == head ==> r == Conflict(ch, start)
    {
      var ts := head.stamp.ts;
      r := (head.stamp.Commit? && ts == 0) || (head.stamp.Uncommitted? && ts != start) || (head.stamp.Commit? && ts > start);
    }

    method Put(start: nat, key: Key, value: Value) returns (r: Result<bool>)
      requires Valid()
      modifies this
      ensures Valid()
      ensures r == if Conflict(old(At(key)), start) then Err(TransactionAborted) else Ok(true)
      ensures table == if r.Ok? then old(table)[key := Push(old(At(key)), start, Some(value))] else old(table)
    {
      if key !in table {
        table := table[key := []];
        size := size + 1;
      }
      var ch := table[key];
      if ch != [] {
        var conflict := CheckConflict(ch[0], start);
        if conflict {
          return Err(TransactionAborted);
        }
      }
      var redo := Node(Uncommitted(start), 0, Some(value));
      table := table[key := [redo] + ch];
      return Ok(true);
    }

    /** Succeeds only on a live head; what it applies `f` to is then the head's value. */
    method Update(start: nat, key: Key, f: Value -> Value) returns (r: Result<bool>)
      requires Valid()
      modifies this
      ensures Valid()
      ensures r.Err? <==> Conflict(old(At(key)), start)
      ensures r.Err? ==> r.error == TransactionAborted
      ensures r == Ok(true) <==>
        !Conflict(old(At(key)), start) && old(At(key)) != [] && old(At(key))[0].record.Some?
      ensures r == Ok(true) ==>
        && ChainValue(old(At(key)), start) == old(At(key))[0].record
        && table == old(table)[key := Push(old(At(key)), start, Some(f(old(At(key))[0].record.value)))]
      ensures r != Ok(true) ==> table == old(table)
    {
      if key !in table {
        return Ok(false);
      }
      var ch := table[key];
      if ch != [] {
        var conflict := CheckConflict(ch[0], start);
        if conflict {
          return Err(TransactionAborted);
        }
      }
      if ch == [] || ch[0].record.None? {
        return Ok(false);
      }
      assert FirstVisible(ch, 0, start) == 0;
      var value := GetValue(ch, start);
      if value.None? {
        return Ok(false);
      }
      var redo := Node(Uncommitted(start), 0, Some(f(value.value)));
      table := table[key := [redo] + ch];
      return Ok(true);
    }

    method Delete(start: nat, key: Key) returns (r: Result<bool>)
      requires Valid()
      modifies this
      ensures Valid()
      ensures r.Err? <==> Conflict(old(At(key)), start)
      ensures r.Err? ==> r.error == TransactionAborted
      ensures r == Ok(true) <==>
        !Conflict(old(At(key)), start) && old(At(key)) != [] && old(At(key))[0].record.Some?
      ensures table == if r == Ok(true) then old(table)[key := Push(old(At(key)), start, None)] else old(table)
    {
      if key !in table {
        return Ok(false);
      }
      var ch := table[key];
      if ch != [] {
        var conflict := CheckConflict(ch[0], start);
        if conflict {
          return Err(TransactionAborted);
        }
      }
      if ch == [] || ch[0].record.None? {
        return Ok(false);
      }
      var redo := Node(Uncommitted(start), 0, None);
      table := table[key := [redo] + ch];
      return Ok(true);
    }

    /** Pop the aborting transaction's nodes off the head. */
    method Rollback(start: nat, key: Key)
      requires Valid()
      modifies this
      ensures Valid()
      ensures table == if key in old(table) then old(table)[key := Unwind(old(At(key)), start)] else old(table)
    {
      if key !in table {
        return;
      }
      ghost var ch := table[key];
      var n := 0;
      while table[key] != [] && table[key][0].stamp == Uncommitted(start)
        invariant n <= |ch| && key in table && size == old(size)
        invariant table == old(table)[key := ch[n..]]
        invariant forall j :: 0 <= j < n ==> ch[j].stamp == Uncommitted(start)
        decreases |ch| - n
      {
        var next := table[key][1..];
        table := table[key := next];
        n := n + 1;
      }
      assert n == OwnRun(ch, 0, start);
      assert table.Keys == old(table).Keys;
    }

    /** Stamp the nodes of one redo record at commit. */
    method StoreTimestamps(start: nat, key: Key, commit: nat)
      requires Valid() && key in table
      modifies this
      ensures Valid() && table == old(table)[key := StampAll(old(At(key)), start, commit)]
    {
      var ch := table[key];
      var i := 0;
      while i < |ch|
        invariant size == old(size) && key in table && 0 <= i <= |ch| == |table[key]|
        invariant table == old(table)[key := table[key]]
        invariant forall j :: 0 <= j < i ==> table[key][j] == StampNode(ch[j], start, commit)
        invariant forall j :: i <= j < |ch| ==> table[key][j] == ch[j]
      {
        if ch[i].stamp == Uncommitted(start) {
          table := table[key := table[key][i := ch[i].(stamp := Stamp.Commit(commit))]];
        }
        i := i + 1;
      }
      assert table[key] == StampAll(ch, start, commit);
      assert table.Keys == old(table).Keys;
    }

    /** The snapshot's visit of one entry. */
    method CollectEntry(minXip: nat, key: Key) returns (e: Option<Entry>)
      requires Valid() && key in table
      modifies this
      ensures Valid()
      ensures e.Some? <==> Collectable(old(At(key)), minXip)
      ensures e.None? ==> table == old(table)
      ensures e.Some? ==>
        var n := old(At(key))[FirstOld(old(At(key)), 0, minXip)];
        e.value == Entry(n.stamp.ts, n.record) && table == old(table)[key := Mark(old(At(key)), minXip)]
    {
      var ch := table[key];
      var i := 0;
      while i < |ch| && !(ch[i].stamp.Commit? && ch[i].stamp.ts < minXip)
        invariant 0 <= i <= |ch|
        invariant forall j :: 0 <= j < i ==> !Old(ch[j], minXip)
      {
        i := i + 1;
      }
      assert FirstOld(ch, 0, minXip) == i;
      if i == |ch| || ch[i].collected != 0 {
        return None;
      }
      table := table[key := ch[i := ch[i].(collected := minXip % U32)]];
      assert table.Keys == old(table).Keys;
      return Some(Entry(ch[i].stamp.ts, ch[i].record));
    }

    /** A snapshot that nobody interrupts: every entry is visited once. */
    method Snapshot(minXip: nat) returns (imm: Table)
      requires Valid()
      modifies this
      ensures Valid() && table.Keys == old(table).Keys
      ensures forall k :: k in table ==>
        && (k in imm <==> Collectable(old(table)[k], minXip))
        && table[k] == (if k in imm then Mark(old(table)[k], minXip) else old(table)[k])
        && (k in imm ==>
              var n := old(table)[k][FirstOld(old(table)[k], 0, minXip)];
              imm[k] == Entry(n.stamp.ts, n.record))
      ensures imm.Keys <= table.Keys
    {
      imm := map[];
      var rest: set<Key> := table.Keys;
      while rest != {}
        invariant Valid() && table.Keys == old(table).Keys && rest <= table.Keys
        invariant imm.Keys <= table.Keys - rest
        invariant forall k :: k in rest ==> table[k] == old(table)[k]
        invariant forall k :: k in table && k !in rest ==>
          && (k in imm <==> Collectable(old(table)[k], minXip))
          && table[k] == (if k in imm then Mark(old(table)[k], minXip) else old(table)[k])
          && (k in imm ==>
                var n := old(table)[k][FirstOld(old(table)[k], 0, minXip)];
                imm[k] == Entry(n.stamp.ts, n.record))
        decreases rest
      {
        var key := NextEntry(rest);
        var e := CollectEntry(minXip, key);
        if e.Some? {
          imm := imm[key := e.value];
        }
        rest := rest - {key};
      }
    }

    /** Garbage collection of one entry. */
    method GcEntry(minXip: nat, key: Key)
      requires Valid() && key in table
      modifies this
      ensures Valid()
      ensures table ==
        var ch := old(At(key));
        if ch == [] then old(table)
        else if Removable(ch, minXip) then old(table) - {key}
        else old(table)[key := Truncate(ch, minXip)]
    {
      var ch := table[key];
      if ch == [] {
        return;
      }
      var i := 0;
      while i + 1 < |ch| && !(ch[i + 1].stamp.Commit? && ch[i + 1].stamp.ts < minXip)
        invariant 0 <= i < |ch|
        invariant forall j :: 1 <= j <= i ==> !Old(ch[j], minXip)
      {
        i := i + 1;
      }
      assert FirstOld(ch, 1, minXip) == i + 1;
      if i + 1 < |ch| && ch[i + 1].collected == minXip {
        table := table[key := ch[..i + 1]];
      }
      assert table == old(table)[key := Truncate(ch, minXip)];
      assert table.Keys == old(table).Keys;
      var head := table[key][0];
      if !(head.stamp.Commit? && head.stamp.ts < minXip) || head.collected != minXip {
        return;
      }
      table := table - {key};
      assert table.Keys == old(table).Keys - {key};
      size := size - 1;
    }

    /** Garbage collection that nobody interrupts. */
    method Gc(minXip: nat)
      requires Valid()
      modifies this
      ensures Valid()
      ensures forall k :: k in old(table) ==>
        var ch := old(table)[k];
        if ch != [] && Removable(ch, minXip) then k !in table
        else k in table && table[k] == if ch == [] then [] else Truncate(ch, minXip)
      ensures table.Keys <= old(table).Keys
    {
      var rest: set<Key> := table.Keys;
      while rest != {}
        invariant Valid() && table.Keys <= old(table).Keys && rest <= table.Keys
        invariant forall k :: k in rest ==> table[k] == old(table)[k]
        invariant forall k :: k in old(table) && k !in rest ==>
          var ch := old(table)[k];
          if ch != [] && Removable(ch, minXip) then k !in table
          else k in table && table[k] == if ch == [] then [] else Truncate(ch, minXip)
        decreases rest
      {
        var key := NextEntry(rest);
        GcEntry(minXip, key);
        rest := rest - {key};
      }
    }
  }
}

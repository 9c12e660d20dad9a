/** The files of the version set as bytes: a sorted run of pairs, encoded, in a table file. */
module TableFiles {
  import opened Options
  import opened Bytes
  import F = Files
  import D = DataBlock
  import I = DataBlockIterator
  import opened FilterBlock
  import opened BlockTable
  import R = BlockTableReader

  /** How keys and values become bytes; what is demanded of it is below. */
  const KeyBytes: Key -> seq<byte>
  const ValueBytes: Value -> seq<byte>

  /** Keys are encoded to strings that are not empty and that the order compares as it does the keys. */
  ghost predicate Encodes(less: I.Order) {
    R.KeyOrder(less) && (forall a, b :: a < b ==> less(KeyBytes(a), KeyBytes(b))) && forall a :: KeyBytes(a) != []
  }

  function Encoded(p: F.Pair): D.Pair { D.Pair(KeyBytes(p.key), ValueBytes(p.value)) }

  function EncodedRun(run: F.Run): (ps: seq<D.Pair>)
    ensures |ps| == |run| && forall i :: 0 <= i < |run| ==> ps[i] == Encoded(run[i])
  {
    seq(|run|, i requires 0 <= i < |run| => Encoded(run[i]))
  }

  function EncodedValue(v: Option<Value>): Option<seq<byte>> {
    if v.Some? then Some(ValueBytes(v.value)) else None
  }

  lemma RunAscends(run: F.Run, less: I.Order)
    requires Encodes(less) && F.Ascending(run)
    ensures R.Ascending(EncodedRun(run), less)
  {
    forall i, j | 0 <= i < j < |run| ensures less(EncodedRun(run)[i].key, EncodedRun(run)[j].key) {
      assert run[i].key < run[j].key;
    }
  }

  lemma SameKey(less: I.Order, a: Key, b: Key)
    requires Encodes(less)
    ensures KeyBytes(a) == KeyBytes(b) <==> a == b
  {
    if a < b { assert less(KeyBytes(a), KeyBytes(b)); } else if b < a { assert less(KeyBytes(b), KeyBytes(a)); }
  }

  lemma AbsentRun(run: F.Run, k: Key)
    requires R.Absent(EncodedRun(run), KeyBytes(k))
    ensures F.Find(run, k) == None
  {
    forall p | p in run ensures p.key != k {
      var i :| 0 <= i < |run| && run[i] == p;
      assert EncodedRun(run)[i].key == KeyBytes(p.key);
    }
    F.FindIn(run, k);
  }

  /** What the encoded pairs answer is what the run has. */
  lemma AnswersFind(run: F.Run, less: I.Order, k: Key, v: Option<seq<byte>>)
    requires Encodes(less) && F.Ascending(run) && R.Answers(EncodedRun(run), KeyBytes(k), v)
    ensures v == EncodedValue(F.Find(run, k))
  {
    if v.Some? {
      var i :| 0 <= i < |run| && EncodedRun(run)[i] == D.Pair(KeyBytes(k), v.value);
      SameKey(less, run[i].key, k);
      F.FindUnique(run, run[i]);
    } else {
      AbsentRun(run, k);
    }
  }

  /** The table file of a run. */
  method WriteRun(run: F.Run, blockSize: nat, restartInterval: nat, millibitsPerKey: nat) returns (file: seq<byte>, ghost t: Table)
    ensures Holds(t, EncodedRun(run)) && file == File(t) && (StaysInside(t.filter) <==> millibitsPerKey > 0 || run == [])
  {
    file, t := Build(EncodedRun(run), blockSize, restartInterval, millibitsPerKey);
  }

  /** A lookup in the bytes of a file finds what the file's run has. */
  method GetInFile(file: seq<byte>, less: I.Order, k: Key, vector: bool, ghost t: Table, ghost run: F.Run)
      returns (v: Result<Option<seq<byte>>>)
    requires file == File(t) && Holds(t, EncodedRun(run)) && R.TableFits(t) && StaysInside(t.filter)
    requires Encodes(less) && F.Ascending(run)
    ensures v == Ok(EncodedValue(F.Find(run, k)))
  {
    hide File, Holds, R.TableFits;
    RunAscends(run, less);
    v := R.LookUp(file, less, KeyBytes(k), vector, t, EncodedRun(run));
    AnswersFind(run, less, k, v.value);
  }

  /** Going through the bytes of a file gives the file's run. */
  method ScanFile(file: seq<byte>, less: I.Order, ghost t: Table, ghost run: F.Run) returns (r: Result<seq<D.Pair>>)
    requires file == File(t) && Holds(t, EncodedRun(run)) && R.TableFits(t)
    ensures r == Ok(EncodedRun(run))
  {
    r := R.Scan(file, less, t, EncodedRun(run));
  }
}

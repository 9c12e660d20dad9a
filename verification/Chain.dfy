/**
 Version chains of one key: the redo nodes reachable from one hash-table entry, newest first.
 A chain is a sequence here; the pointer tag that marks a live head is the head's record being
 an insert, and the null pointer is the empty sequence.
 */
module Chain {
  import opened Options

  /** A normal-mode timestamp: the raw counter value together with its type. */
  datatype Stamp = Commit(ts: nat) | Uncommitted(ts: nat)

  /** One redo node. `record` is `Some(v)` for an insert and `None` for a delete;
      `collected` is 0 until a flush claims the node. */
  datatype Node = Node(stamp: Stamp, collected: nat, record: Option<Value>)

  type Versions = seq<Node>

  /** A transaction started at `start` sees its own nodes and those committed no later than its start. */
  predicate Visible(n: Node, start: nat) {
    match n.stamp
    case Commit(c) => c <= start
    case Uncommitted(w) => w == start
  }

  /** Committed before `minXip`, hence safe to move to an immutable table. */
  predicate Old(n: Node, minXip: nat) {
    n.stamp.Commit? && n.stamp.ts < minXip
  }

  function FirstVisible(ch: Versions, i: nat, start: nat): (r: nat)
    requires i <= |ch|
    ensures i <= r <= |ch|
    ensures r < |ch| ==> Visible(ch[r], start)
    ensures forall j :: i <= j < r ==> !Visible(ch[j], start)
    decreases |ch| - i
  {
    if i == |ch| || Visible(ch[i], start) then i else FirstVisible(ch, i + 1, start)
  }

  function FirstOld(ch: Versions, i: nat, minXip: nat): (r: nat)
    requires i <= |ch|
    ensures i <= r <= |ch|
    ensures r < |ch| ==> Old(ch[r], minXip)
    ensures forall j :: i <= j < r ==> !Old(ch[j], minXip)
    decreases |ch| - i
  {
    if i == |ch| || Old(ch[i], minXip) then i else FirstOld(ch, i + 1, minXip)
  }

  /** The end of the run of nodes at the head that carry the uncommitted stamp of `start`. */
  function OwnRun(ch: Versions, i: nat, start: nat): (r: nat)
    requires i <= |ch|
    ensures i <= r <= |ch|
    ensures r < |ch| ==> ch[r].stamp != Uncommitted(start)
    ensures forall j :: i <= j < r ==> ch[j].stamp == Uncommitted(start)
    decreases |ch| - i
  {
    if i == |ch| || ch[i].stamp != Uncommitted(start) then i else OwnRun(ch, i + 1, start)
  }

  /** What a chain walk returns: the record of the first visible node. */
  function ChainValue(ch: Versions, start: nat): Option<Value> {
    var i := FirstVisible(ch, 0, start);
    if i == |ch| then None else ch[i].record
  }

  /** Write-write conflict with the head: an invalid stamp, another transaction's
      uncommitted node, or a version committed after the writer started. */
  predicate Conflict(ch: Versions, start: nat) {
    ch != [] &&
    match ch[0].stamp
    case Commit(c) => c == 0 || c > start
    case Uncommitted(w) => w != start
  }

  function Push(ch: Versions, start: nat, record: Option<Value>): Versions {
    [Node(Uncommitted(start), 0, record)] + ch
  }

  /** Commit stamping: every node of `start` receives the commit timestamp. */
  function StampNode(n: Node, start: nat, commit: nat): Node {
    if n.stamp == Uncommitted(start) then n.(stamp := Commit(commit)) else n
  }

  function StampAll(ch: Versions, start: nat, commit: nat): (r: Versions)
    ensures |r| == |ch|
    ensures forall i :: 0 <= i < |ch| ==> r[i] == StampNode(ch[i], start, commit)
  {
    seq(|ch|, i requires 0 <= i < |ch| => StampNode(ch[i], start, commit))
  }

  /** Rollback pops the head run of the aborting transaction. */
  function Unwind(ch: Versions, start: nat): Versions {
    ch[OwnRun(ch, 0, start)..]
  }

  /** Collection claims the first old node unless some flush already did. */
  predicate Collectable(ch: Versions, minXip: nat) {
    var i := FirstOld(ch, 0, minXip);
    i < |ch| && ch[i].collected == 0
  }

  const U32 := 0x1_0000_0000

  /** The claim is a 32-bit field, so the flush timestamp is narrowed when it is stored. */
  function Mark(ch: Versions, minXip: nat): Versions
    requires Collectable(ch, minXip)
  {
    var i := FirstOld(ch, 0, minXip);
    ch[i := ch[i].(collected := minXip % U32)]
  }

  /** Garbage collection below the head: cut at the first old non-head node if this flush claimed it. */
  function Truncate(ch: Versions, minXip: nat): Versions
    requires ch != []
  {
    var j := FirstOld(ch, 1, minXip);
    if j < |ch| && ch[j].collected == minXip then ch[..j] else ch
  }

  /** The whole entry goes when its head is old and was claimed by this flush. */
  predicate Removable(ch: Versions, minXip: nat) {
    ch != [] && Old(ch[0], minXip) && ch[0].collected == minXip
  }
}

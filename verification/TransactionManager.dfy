/** The transaction manager: the timestamp counter and the set of running transactions, changed under
    one lock, and the compact snapshots taken for fast-commit visibility. */
module TransactionManager {
  import opened Options

  /** A compact snapshot: first running transaction, first unassigned one, and the running ones between. */
  datatype XidSnapshot = XidSnapshot(minXid: nat, maxXid: nat, xips: set<nat>) {
    predicate IsXidInProgress(xid: nat) {
      if xid < minXid then false
      else if xid >= maxXid then true
      else xid in xips
    }
  }

  class TransactionManager {
    var timestampCounter: nat
    var xips: set<nat>
    var latestCompletedXid: nat // 0 is the invalid timestamp
    ghost var started: set<nat> // every start timestamp handed out

    ghost predicate Valid()
      reads this
    {
      && timestampCounter >= 1
      && xips <= started
      && (forall x :: x in started ==> 1 <= x < timestampCounter)
      && (latestCompletedXid == 0 || latestCompletedXid in started - xips)
      && (forall x :: x in started && x !in xips ==> x <= latestCompletedXid)
    }

    constructor ()
      ensures Valid() && timestampCounter == 1 && xips == {} && started == {}
    {
      timestampCounter := 1;
      xips := {};
      latestCompletedXid := 0;
      started := {};
    }

    method StartTransaction() returns (start: nat)
      requires Valid()
      modifies this
      ensures Valid()
      ensures start == old(timestampCounter) && timestampCounter == start + 1
      ensures xips == old(xips) + {start} && started == old(started) + {start}
      ensures start !in old(started)
    {
      start := timestampCounter;
      timestampCounter := timestampCounter + 1;
      xips := xips + {start};
      started := started + {start};
    }

    /** Leave the set of running transactions, committed or aborted. */
    method Complete(start: nat)
      requires Valid() && start in xips
      modifies this
      ensures Valid()
      ensures xips == old(xips) - {start} && started == old(started) && timestampCounter == old(timestampCounter)
    {
      xips := xips - {start};
      if latestCompletedXid < start {
        latestCompletedXid := start;
      }
    }

    method NextCommitTimestamp() returns (commit: nat)
      requires Valid()
      modifies this
      ensures Valid()
      ensures commit == old(timestampCounter) && timestampCounter == commit + 1
      ensures xips == old(xips) && started == old(started)
    {
      commit := timestampCounter;
      timestampCounter := timestampCounter + 1;
    }

    method MinXip() returns (m: Option<nat>)
      ensures m.None? <==> xips == {}
      ensures m.Some? ==> IsMin(m.value, xips)
    {
      if xips == {} {
        return None;
      }
      var x := First(xips);
      return Some(x);
    }

    /** The compact snapshot says of every other transaction, past or future, exactly whether it was
        running when the snapshot was taken or started later. */
    method RecordSnapshot(own: nat) returns (snapshot: XidSnapshot)
      requires Valid()
      ensures forall x :: (x in started || x >= timestampCounter) && x != own ==>
        (snapshot.IsXidInProgress(x) <==> x in xips || x >= timestampCounter)
      ensures own !in snapshot.xips && snapshot.xips <= xips
    {
      var maxXid := latestCompletedXid + 1;
      var minXid: nat := maxXid;
      var active: set<nat> := {};
      var rest: set<nat> := xips;
      while rest != {}
        invariant rest <= xips && minXid <= maxXid && active <= xips && own !in active
        invariant forall x :: x in active ==> x < maxXid
        invariant forall x :: x in xips && x !in rest && x < maxXid ==> minXid <= x && (x == own || x in active)
        decreases rest
      {
        HasElement(rest);
        var xid :| xid in rest;
        rest := rest - {xid};
        if xid >= maxXid {
          continue;
        }
        if xid < minXid {
          minXid := xid;
        }
        if xid != own {
          active := active + {xid};
        }
      }
      return XidSnapshot(minXid, maxXid, active);
    }
  }
}

/** Failure-compatible result types and the key and value types shared by the store's modules. */
module Options {

  datatype Option<+T> = None | Some(value: T)

  datatype Result<+T> = Ok(value: T) | Err(error: Error)

  /** The error variants of the source's `Error` enum that the modelled code returns. */
  datatype Error = TransactionAborted | DataCorrupted | InvalidState

  /** User keys: any totally ordered type will do, integers stand for it. */
  type Key = int

  /** User values are never inspected. */
  type Value(==, !new)

  lemma HasElement(s: set<int>)
    ensures s == {} || exists x :: x in s
  {
    if forall x :: x !in s { assert s == {}; }
  }

  predicate IsMin(m: nat, ms: set<nat>) {
    m in ms && forall x :: x in ms ==> m <= x
  }

  /** The first element of an ordered set. */
  method First(ms: set<nat>) returns (m: nat)
    requires ms != {}
    ensures IsMin(m, ms)
  {
    HasElement(ms);
    m :| m in ms;
    var rest := ms - {m};
    while rest != {}
      invariant m in ms && rest <= ms
      invariant forall y :: y in ms && y !in rest ==> m <= y
      decreases rest
    {
      HasElement(rest);
      var x :| x in rest;
      if x < m { m := x; }
      rest := rest - {x};
    }
  }

  /** The last element of an ordered set. */
  method Last(ms: set<nat>) returns (m: nat)
    requires ms != {}
    ensures m in ms && forall x :: x in ms ==> x <= m
  {
    HasElement(ms);
    m :| m in ms;
    var rest := ms - {m};
    while rest != {}
      invariant m in ms && rest <= ms
      invariant forall y :: y in ms && y !in rest ==> y <= m
      decreases rest
    {
      HasElement(rest);
      var x :| x in rest;
      if x > m { m := x; }
      rest := rest - {x};
    }
  }
}

/** Resource names and the lock manager that every LockContext wraps.
    LockManager.java is not part of this model: it is modelled as a table
    from (transaction, resource) to the kind granted, whose operations take
    effect at once (its wait queues are left out). */
module Locking {
  import opened LockTypes

  /** A transaction number. */
  type Txn = nat

  /** A ResourceName: the non-empty sequence of segments from a root
      resource down to the resource itself. */
  type Name = n: seq<string> | |n| > 0 witness [""]

  /** Whether `a` names a strict ancestor of what `b` names. */
  predicate IsStrictPrefix(a: seq<string>, b: seq<string>) {
    |a| < |b| && b[..|a|] == a
  }

  /** The faults the locking layer reports to its callers. */
  datatype LockError =
    | UnsupportedOperation   // a mutating call on a readonly context
    | InvalidLock            // the request would break the hierarchy rules
    | DuplicateLockRequest   // the transaction already holds a lock there
    | NoLockHeld             // the transaction holds no lock there

  /** Normal return, or the exception a call throws. */
  datatype Outcome = Ok | Err(error: LockError)

  /** The locks granted: at most one kind per transaction and resource. */
  type LockTable = map<(Txn, Name), LockType>

  /** getLockType: the kind `txn` holds on `n`, NL if none. */
  function LockTypeOf(locks: LockTable, txn: Txn, n: Name): LockType {
    if (txn, n) in locks then locks[(txn, n)] else NL
  }

  /** The names of the resources on which `txn` holds a lock (getLocks). */
  function LocksOf(locks: LockTable, txn: Txn): (r: set<Name>)
    ensures forall n :: n in r <==> (txn, n) in locks
  {
    set p | p in locks && p.0 == txn :: p.1
  }

  /** The table without the locks `txn` holds on `names`. */
  function WithoutLocks(locks: LockTable, txn: Txn, names: set<Name>): (r: LockTable)
    ensures forall p :: p in r <==> p in locks && !(p.0 == txn && p.1 in names)
    ensures forall p :: p in r ==> r[p] == locks[p]
  {
    map p | p in locks && !(p.0 == txn && p.1 in names) :: locks[p]
  }

  class LockManager {
    var locks: LockTable

    constructor ()
      ensures locks == map[]
    {
      locks := map[];
    }

    function GetLockType(txn: Txn, n: Name): LockType
      reads this
    {
      LockTypeOf(locks, txn, n)
    }

    /** Grants `kind` on `n` to `txn`, which must not hold a lock there yet. */
    method Acquire(txn: Txn, n: Name, kind: LockType) returns (r: Outcome)
      modifies this
      ensures r == if (txn, n) in old(locks) then Err(DuplicateLockRequest) else Ok
      ensures locks == if r.Ok? then old(locks)[(txn, n) := kind] else old(locks)
    {
      if (txn, n) in locks {
        return Err(DuplicateLockRequest);
      }
      locks := locks[(txn, n) := kind];
      return Ok;
    }

    /** Removes the lock `txn` holds on `n`. */
    method Release(txn: Txn, n: Name) returns (r: Outcome)
      modifies this
      ensures r == if (txn, n) in old(locks) then Ok else Err(NoLockHeld)
      ensures locks == if r.Ok? then old(locks) - {(txn, n)} else old(locks)
    {
      if (txn, n) !in locks {
        return Err(NoLockHeld);
      }
      locks := locks - {(txn, n)};
      return Ok;
    }

    /** In one step, releases the locks `txn` holds on `releaseNames` and
        grants `kind` on `n`; `n` may be among the names released. */
    method AcquireAndRelease(txn: Txn, n: Name, kind: LockType, releaseNames: set<Name>)
      returns (r: Outcome)
      modifies this
      ensures r == if (txn, n) in old(locks) && n !in releaseNames then Err(DuplicateLockRequest)
                   else if exists m :: m in releaseNames && (txn, m) !in old(locks) then Err(NoLockHeld)
                   else Ok
      ensures locks == if r.Ok? then WithoutLocks(old(locks), txn, releaseNames)[(txn, n) := kind]
                       else old(locks)
    {
      if (txn, n) in locks && n !in releaseNames {
        return Err(DuplicateLockRequest);
      }
      if exists m :: m in releaseNames && (txn, m) !in locks {
        return Err(NoLockHeld);
      }
      locks := WithoutLocks(locks, txn, releaseNames)[(txn, n) := kind];
      return Ok;
    }
  }
}

/** What the per-transaction counters of a LockContext are meant to hold:
    the number of locks the transaction holds on the context's direct
    children (LockContext.java:34-36). `acquire` raises only the counter of
    the parent (LockContext.java:116-120), but `release` lowers every counter
    on the way up until it meets a zero one (LockContext.java:304-315). This
    module shows how that asymmetry lets a lock on a child outlive the
    release of its parent, and proves that a release lowering only the
    parent's counter keeps the counters exact. */
module ChildLockCounts {
  import opened Wrappers
  import opened LockTypes
  import opened Locking
  import opened LockContexts

  /** The direct children of `n` on which `txn` holds a lock. */
  ghost function ChildLocks(locks: LockTable, txn: Txn, n: Name): (r: set<Name>)
    ensures forall c :: c in r <==> (txn, c) in locks && Parent(c) == Some(n)
  {
    set p | p in locks && p.0 == txn && Parent(p.1) == Some(n) :: p.1
  }

  /** Every counter equals the number of locks its transaction holds on the
      context's direct children. */
  ghost predicate CountsChildLocks(s: TreeState) {
    forall n, t :: n in s.contexts ==> NumChildren(s.contexts[n], t) == |ChildLocks(s.locks, t, n)|
  }

  /** A tree with no locks and no counters satisfies the invariant. */
  lemma EmptyTableCounts(cs: Contexts)
    requires forall n :: n in cs ==> cs[n].numChildLocks == map[]
    ensures CountsChildLocks(TreeState(cs, map[]))
  {
    forall n, t | n in cs
      ensures NumChildren(cs[n], t) == |ChildLocks(map[], t, n)|
    {
      assert ChildLocks(map[], t, n) == {};
    }
  }

  /** Adding a lock of `txn` on `ctx` raises by one exactly the count of
      `txn` at the parent of `ctx`. */
  lemma CountWithLock(s: TreeState, s': TreeState, ctx: Name, txn: Txn, kind: LockType, n: Name, t: Txn)
    requires CountsChildLocks(s) && n in s.contexts && n in s'.contexts
    requires (txn, ctx) !in s.locks && s'.locks == s.locks[(txn, ctx) := kind]
    requires NumChildren(s'.contexts[n], t)
             == NumChildren(s.contexts[n], t) + (if t == txn && Parent(ctx) == Some(n) then 1 else 0)
    ensures NumChildren(s'.contexts[n], t) == |ChildLocks(s'.locks, t, n)|
  {
    if t == txn && Parent(ctx) == Some(n) {
      assert ctx !in ChildLocks(s.locks, t, n);
      assert ChildLocks(s'.locks, t, n) == ChildLocks(s.locks, t, n) + {ctx};
    } else {
      assert ChildLocks(s'.locks, t, n) == ChildLocks(s.locks, t, n);
    }
  }

  /** acquire keeps the counters exact: the one new lock is on a child of
      the one context whose counter it raises. */
  lemma AcquireKeepsCounts(s: TreeState, ctx: Name, txn: Txn, kind: LockType)
    requires WellFormed(s) && ctx in s.contexts && CountsChildLocks(s)
    ensures CountsChildLocks(AcquireStep(s, ctx, txn, kind).state)
  {
    var r := AcquireStep(s, ctx, txn, kind);
    AcquireConditions(s, ctx, txn, kind);
    if r.outcome.Ok? {
      forall n, t | n in r.state.contexts
        ensures NumChildren(r.state.contexts[n], t) == |ChildLocks(r.state.locks, t, n)|
      {
        assert (Parent(ctx) == Some(n)) == (|ctx| > 1 && n == ctx[..|ctx| - 1]);
        CountWithLock(s, r.state, ctx, txn, kind, n, t);
      }
    }
  }

  /** release with the bookkeeping of acquire: the same checks as
      ReleaseStep, but on success only the counter of the parent goes down
      (and never below zero). */
  function ReleaseStepCorrected(s: TreeState, ctx: Name, txn: Txn): (r: Step)
    requires WellFormed(s) && ctx in s.contexts
    ensures WellFormed(r.state) && SameFlags(s.contexts, r.state.contexts)
    ensures r.outcome.Err? ==> r.state == s
  {
    if s.contexts[ctx].readonly then Step(Err(UnsupportedOperation), s)
    else if LockTypeOf(s.locks, txn, ctx) == NL then Step(Err(NoLockHeld), s)
    else if NumChildren(s.contexts[ctx], txn) != 0 then Step(Err(InvalidLock), s)
    else
      var locks := s.locks - {(txn, ctx)};
      if |ctx| == 1 then Step(Ok, TreeState(s.contexts, locks))
      else
        var p := ctx[..|ctx| - 1];
        var numLocks := NumChildren(s.contexts[p], txn);
        Step(Ok, TreeState(if numLocks != 0 then SetCount(s.contexts, p, txn, numLocks - 1) else s.contexts, locks))
  }

  /** Under exact counters, a zero counter means no lock on a child. */
  lemma ZeroCountNoChildLock(s: TreeState, ctx: Name, txn: Txn)
    requires ctx in s.contexts && CountsChildLocks(s)
    ensures NumChildren(s.contexts[ctx], txn) == 0 <==> forall c :: (txn, c) in s.locks ==> Parent(c) != Some(ctx)
  {
    var held := ChildLocks(s.locks, txn, ctx);
    assert NumChildren(s.contexts[ctx], txn) == |held|;
    if held != {} {
      var c :| c in held;
      assert (txn, c) in s.locks && Parent(c) == Some(ctx);
    }
  }

  /** Removing the lock of `txn` on `ctx` lowers by one exactly the count of
      `txn` at the parent of `ctx`. */
  lemma CountWithoutLock(s: TreeState, s': TreeState, ctx: Name, txn: Txn, n: Name, t: Txn)
    requires CountsChildLocks(s) && n in s.contexts && n in s'.contexts
    requires (txn, ctx) in s.locks && s'.locks == s.locks - {(txn, ctx)}
    requires NumChildren(s'.contexts[n], t)
             == NumChildren(s.contexts[n], t) - (if t == txn && Parent(ctx) == Some(n) then 1 else 0)
    ensures NumChildren(s'.contexts[n], t) == |ChildLocks(s'.locks, t, n)|
  {
    if t == txn && Parent(ctx) == Some(n) {
      assert ctx in ChildLocks(s.locks, t, n);
      assert ChildLocks(s'.locks, t, n) == ChildLocks(s.locks, t, n) - {ctx};
    } else {
      assert ChildLocks(s'.locks, t, n) == ChildLocks(s.locks, t, n);
    }
  }

  /** The corrected release keeps the counters exact. */
  lemma CorrectedReleaseKeepsCounts(s: TreeState, ctx: Name, txn: Txn)
    requires WellFormed(s) && ctx in s.contexts && CountsChildLocks(s)
    ensures CountsChildLocks(ReleaseStepCorrected(s, ctx, txn).state)
  {
    var r := ReleaseStepCorrected(s, ctx, txn);
    if r.outcome.Ok? {
      assert (txn, ctx) in s.locks && r.state.locks == s.locks - {(txn, ctx)};
      if |ctx| > 1 {
        var p := ctx[..|ctx| - 1];
        assert ctx in ChildLocks(s.locks, txn, p);
        assert NumChildren(s.contexts[p], txn) != 0;
        assert r.state.contexts == SetCount(s.contexts, p, txn, NumChildren(s.contexts[p], txn) - 1);
      } else {
        assert r.state.contexts == s.contexts;
      }
      forall n, t | n in r.state.contexts
        ensures NumChildren(r.state.contexts[n], t) == |ChildLocks(r.state.locks, t, n)|
      {
        CountWithoutLock(s, r.state, ctx, txn, n, t);
      }
    }
  }

  /** Under exact counters the corrected release throws InvalidLock exactly
      while the transaction still holds a lock on a child; on success that
      one lock goes, no lock of the transaction is left on a child, and the
      counters stay exact. */
  lemma CorrectedReleaseConditions(s: TreeState, ctx: Name, txn: Txn)
    requires WellFormed(s) && ctx in s.contexts && CountsChildLocks(s)
    ensures var r := ReleaseStepCorrected(s, ctx, txn);
      && (s.contexts[ctx].readonly ==> r.outcome == Err(UnsupportedOperation))
      && (!s.contexts[ctx].readonly && LockTypeOf(s.locks, txn, ctx) == NL ==> r.outcome == Err(NoLockHeld))
      && (r.outcome == Err(InvalidLock) <==>
            && !s.contexts[ctx].readonly && LockTypeOf(s.locks, txn, ctx) != NL
            && exists c :: (txn, c) in s.locks && Parent(c) == Some(ctx))
      && (r.outcome.Ok? <==>
            && !s.contexts[ctx].readonly && LockTypeOf(s.locks, txn, ctx) != NL
            && forall c :: (txn, c) in s.locks ==> Parent(c) != Some(ctx))
      && (r.outcome.Ok? ==> (txn, ctx) in s.locks && r.state.locks == s.locks - {(txn, ctx)})
      && (r.outcome.Ok? ==> forall c :: (txn, c) in r.state.locks ==> Parent(c) != Some(ctx))
      && CountsChildLocks(r.state)
  {
    ZeroCountNoChildLock(s, ctx, txn);
    CorrectedReleaseKeepsCounts(s, ctx, txn);
  }

  // ------------------------------------------ the release as written

  /** A writable context with no counters. */
  function Plain(): ContextNode {
    ContextNode(false, false, map[])
  }

  /** The contexts of a database, one of its tables and one of its pages. */
  function ThreeLevels(): (r: TreeState)
    ensures WellFormed(r) && CountsChildLocks(r)
    ensures r.contexts.Keys == {["db"], ["db", "t"], ["db", "t", "p"]}
    ensures forall n :: n in r.contexts ==> !r.contexts[n].readonly
  {
    var r := TreeState(map[["db"] := Plain(), ["db", "t"] := Plain(), ["db", "t", "p"] := Plain()], map[]);
    var db: Name := ["db"];
    var t: Name := ["db", "t"];
    var p: Name := ["db", "t", "p"];
    assert t[..1] == db && p[..1] == db && p[..2] == t;
    EmptyTableCounts(r.contexts);
    r
  }

  /** Transaction 1 acquires IX on the database. */
  function AcquiredDatabase(): TreeState {
    AcquireStep(ThreeLevels(), ["db"], 1, IX).state
  }

  /** ... then IX on the table. */
  function AcquiredTable(): TreeState {
    AcquireStep(AcquiredDatabase(), ["db", "t"], 1, IX).state
  }

  /** ... then S on the page. */
  function Acquired(): TreeState {
    AcquireStep(AcquiredTable(), ["db", "t", "p"], 1, S).state
  }

  /** The three contexts exist, every lock is held on one of them, no
      context is readonly, and the counters are exact. */
  ghost predicate ThreeWritable(s: TreeState) {
    && WellFormed(s) && CountsChildLocks(s)
    && s.contexts.Keys == {["db"], ["db", "t"], ["db", "t", "p"]}
    && forall n :: n in s.contexts ==> !s.contexts[n].readonly
  }

  /** The lock table after the three acquires. */
  function ThreeLocks(): LockTable {
    map[(1, ["db"]) := IX, (1, ["db", "t"]) := IX, (1, ["db", "t", "p"]) := S]
  }

  /** The lock of transaction 1 on the table is the only one on a child of the database. */
  lemma ThreeLocksUnderDatabase()
    ensures ChildLocks(ThreeLocks(), 1, ["db"]) == {["db", "t"]}
  {
    var t: Name := ["db", "t"];
    assert t[..1] == ["db"];
    assert t in ChildLocks(ThreeLocks(), 1, ["db"]);
  }

  /** The lock of transaction 1 on the page is the only one on a child of the table. */
  lemma ThreeLocksUnderTable()
    ensures ChildLocks(ThreeLocks(), 1, ["db", "t"]) == {["db", "t", "p"]}
  {
    var p: Name := ["db", "t", "p"];
    assert p[..2] == ["db", "t"];
    assert p in ChildLocks(ThreeLocks(), 1, ["db", "t"]);
  }

  /** No lock is held below the page. */
  lemma ThreeLocksUnderPage()
    ensures ChildLocks(ThreeLocks(), 1, ["db", "t", "p"]) == {}
  {
  }

  /** The first acquire succeeds. */
  lemma AcquiredDatabaseHolds()
    ensures ThreeWritable(AcquiredDatabase())
    ensures AcquiredDatabase().locks == map[(1, ["db"]) := IX]
  {
    var s0 := ThreeLevels();
    AcquireConditions(s0, ["db"], 1, IX);
    AcquireKeepsCounts(s0, ["db"], 1, IX);
  }

  /** The second acquire succeeds: the database holds IX. */
  lemma AcquiredTableHolds()
    ensures ThreeWritable(AcquiredTable())
    ensures AcquiredTable().locks == map[(1, ["db"]) := IX, (1, ["db", "t"]) := IX]
  {
    var t: Name := ["db", "t"];
    assert t[..1] == ["db"];
    AcquiredDatabaseHolds();
    var s1 := AcquiredDatabase();
    AcquireConditions(s1, t, 1, IX);
    assert LockTypeOf(s1.locks, 1, t[..1]) == IX;
    AcquireKeepsCounts(s1, t, 1, IX);
  }

  /** S on the page succeeds when IX is held on the database and the table. */
  lemma AcquirePageFrom(s: TreeState)
    requires ThreeWritable(s) && s.locks == map[(1, ["db"]) := IX, (1, ["db", "t"]) := IX]
    ensures var r := AcquireStep(s, ["db", "t", "p"], 1, S).state;
      ThreeWritable(r) && r.locks == ThreeLocks()
  {
    var p: Name := ["db", "t", "p"];
    assert p[..1] == ["db"] && p[..2] == ["db", "t"];
    assert LockTypeOf(s.locks, 1, p[..1]) == IX && LockTypeOf(s.locks, 1, p[..2]) == IX;
    assert !HasSIXAncestor(s.locks, 1, p);
    AcquireConditions(s, p, 1, S);
    AcquireKeepsCounts(s, p, 1, S);
  }

  /** All three acquires succeed. */
  lemma AcquiredHolds()
    ensures ThreeWritable(Acquired()) && Acquired().locks == ThreeLocks()
  {
    AcquiredTableHolds();
    AcquirePageFrom(AcquiredTable());
  }

  /** With exact counters and the three locks, each of the two upper
      counters of transaction 1 is one and the page's is zero. */
  lemma ThreeLocksCounters(s: TreeState)
    requires ThreeWritable(s) && s.locks == ThreeLocks()
    ensures NumChildren(s.contexts[["db"]], 1) == 1 && NumChildren(s.contexts[["db", "t"]], 1) == 1
    ensures NumChildren(s.contexts[["db", "t", "p"]], 1) == 0
  {
    ThreeLocksUnderDatabase();
    ThreeLocksUnderTable();
    ThreeLocksUnderPage();
  }

  /** What AcquiredHolds states about the tree after the three acquires. */
  ghost predicate LikeAcquired(s: TreeState) {
    && ThreeWritable(s) && s.locks == ThreeLocks()
    && NumChildren(s.contexts[["db"]], 1) == 1 && NumChildren(s.contexts[["db", "t"]], 1) == 1
    && NumChildren(s.contexts[["db", "t", "p"]], 1) == 0
  }

  /** As written, first release: the page's lock goes, and the counters of
      the table AND of the database drop to zero. */
  lemma AsWrittenPageRelease(s: TreeState)
    requires LikeAcquired(s)
    ensures var s4 := ReleaseStep(s, ["db", "t", "p"], 1);
      && s4.outcome == Ok && WellFormed(s4.state) && s4.state.locks == ThreeLocks() - {(1, ["db", "t", "p"])}
      && ["db"] in s4.state.contexts && !s4.state.contexts[["db"]].readonly
      && NumChildren(s4.state.contexts[["db"]], 1) == 0
  {
    var db: Name := ["db"];
    var t: Name := ["db", "t"];
    var p: Name := ["db", "t", "p"];
    assert t[..1] == db && t[..2] == t && p[..2] == t;
    ReleaseConditions(s, p, 1);
    assert OnChain(s.contexts, 1, Some(t), db);
  }

  /** As written, second release: the database's counter is zero, so its lock
      goes although the table's is still held, and the counters are no longer
      exact. */
  lemma AsWrittenDatabaseRelease(s: TreeState)
    requires WellFormed(s) && s.locks == ThreeLocks() - {(1, ["db", "t", "p"])}
    requires ["db"] in s.contexts && !s.contexts[["db"]].readonly && NumChildren(s.contexts[["db"]], 1) == 0
    ensures var s5 := ReleaseStep(s, ["db"], 1);
      && s5.outcome == Ok
      && (1, ["db", "t"]) in s5.state.locks && (1, ["db"]) !in s5.state.locks
      && !CountsChildLocks(s)
  {
    var t: Name := ["db", "t"];
    assert t[..1] == ["db"];
    assert (1, t) in s.locks && t in ChildLocks(s.locks, 1, ["db"]);
    assert NumChildren(s.contexts[["db"]], 1) != |ChildLocks(s.locks, 1, ["db"])|;
    assert LockTypeOf(s.locks, 1, ["db"]) == IX;
    ReleaseConditions(s, ["db"], 1);
  }

  /** Corrected, first release: the page's lock goes and the counters stay exact. */
  lemma CorrectedPageRelease(s: TreeState)
    requires LikeAcquired(s)
    ensures var c4 := ReleaseStepCorrected(s, ["db", "t", "p"], 1);
      c4.outcome == Ok && ThreeWritable(c4.state) && c4.state.locks == ThreeLocks() - {(1, ["db", "t", "p"])}
  {
    CorrectedReleaseConditions(s, ["db", "t", "p"], 1);
  }

  /** Corrected, second release: the table's lock is still held, so releasing
      the database throws InvalidLock. */
  lemma CorrectedDatabaseRelease(s: TreeState)
    requires ThreeWritable(s) && s.locks == ThreeLocks() - {(1, ["db", "t", "p"])}
    ensures ReleaseStepCorrected(s, ["db"], 1).outcome == Err(InvalidLock)
  {
    var t: Name := ["db", "t"];
    assert t[..1] == ["db"];
    assert (1, t) in s.locks && Parent(t) == Some(["db"]);
    assert LockTypeOf(s.locks, 1, ["db"]) == IX;
    CorrectedReleaseConditions(s, ["db"], 1);
  }

  /** The trace: transaction 1 takes IX on the database, IX on the table and S
      on the page, then releases the page and the database. As written both
      releases succeed and the lock on the table outlives the one on the
      database; with the corrected release the second one throws InvalidLock. */
  lemma ReleaseForgetsChildLock()
    ensures var s := Acquired();
      WellFormed(s) && ["db"] in s.contexts && ["db", "t", "p"] in s.contexts &&
      var s4 := ReleaseStep(s, ["db", "t", "p"], 1);
      var s5 := ReleaseStep(s4.state, ["db"], 1);
      && s4.outcome == Ok && s5.outcome == Ok
      && (1, ["db", "t"]) in s5.state.locks && (1, ["db"]) !in s5.state.locks
      && !CountsChildLocks(s4.state)
      && var c4 := ReleaseStepCorrected(s, ["db", "t", "p"], 1);
         c4.outcome == Ok && ReleaseStepCorrected(c4.state, ["db"], 1).outcome == Err(InvalidLock)
  {
    AcquiredHolds();
    var s := Acquired();
    ThreeLocksCounters(s);
    assert LikeAcquired(s);
    AsWrittenPageRelease(s);
    AsWrittenDatabaseRelease(ReleaseStep(s, ["db", "t", "p"], 1).state);
    CorrectedPageRelease(s);
    CorrectedDatabaseRelease(ReleaseStepCorrected(s, ["db", "t", "p"], 1).state);
  }
}

/** The tree of lock contexts that gives the lock manager its hierarchy
    (LockContext.java). A context is identified by its ResourceName, its parent
    is the context of the name without the last segment, and `childContext`
    creates a context at most once per name; so the tree is modelled as a map
    from names to the state each context keeps besides its name. */
module LockContexts {
  import opened Wrappers
  import opened LockTypes
  import opened Locking

  /** The fields of one LockContext that change or matter besides its name. */
  datatype ContextNode = ContextNode(readonly: bool, childLocksDisabled: bool, numChildLocks: map<Txn, int>)

  type Contexts = map<Name, ContextNode>

  /** The contexts that exist, and the lock table of the lock manager under them. */
  datatype TreeState = TreeState(contexts: Contexts, locks: LockTable)

  /** The outcome of a call together with the state after it. */
  datatype Step = Step(outcome: Outcome, state: TreeState)

  /** getNumChildren: the counter of `txn`, 0 when it has none. */
  function NumChildren(node: ContextNode, txn: Txn): int {
    if txn in node.numChildLocks then node.numChildLocks[txn] else 0
  }

  /** The name of the parent context, None for a root. */
  function Parent(n: Name): Option<Name> {
    if |n| == 1 then None else Some(n[..|n| - 1])
  }

  /** Every context's ancestors exist too. */
  ghost predicate PrefixClosed(cs: Contexts) {
    forall n, k :: n in cs && 0 < k < |n| ==> n[..k] in cs
  }

  ghost predicate CountersNonNegative(cs: Contexts) {
    forall n, t :: n in cs ==> NumChildren(cs[n], t) >= 0
  }

  /** The states the tree can reach: ancestors exist, counters are never
      negative, and every lock is held on a resource that has a context. */
  ghost predicate WellFormed(s: TreeState) {
    && PrefixClosed(s.contexts)
    && CountersNonNegative(s.contexts)
    && (forall p :: p in s.locks ==> p.1 in s.contexts)
  }

  /** `cs'` has the same contexts as `cs`, with the same flags. */
  ghost predicate SameFlags(cs: Contexts, cs': Contexts) {
    && cs'.Keys == cs.Keys
    && forall n :: n in cs ==> cs'[n].readonly == cs[n].readonly && cs'[n].childLocksDisabled == cs[n].childLocksDisabled
  }

  /** `cs` with the counter of `txn` at `n` set to `v`. */
  function SetCount(cs: Contexts, n: Name, txn: Txn, v: int): (r: Contexts)
    requires n in cs
    ensures SameFlags(cs, r)
    ensures forall m, t :: m in cs ==> NumChildren(r[m], t) == if m == n && t == txn then v else NumChildren(cs[m], t)
  {
    cs[n := cs[n].(numChildLocks := cs[n].numChildLocks[txn := v])]
  }

  // ---------------------------------------------------------------- queries

  /** hasSIXAncestor: some strict ancestor of `n` is explicitly locked SIX by `txn`. */
  function HasSIXAncestor(locks: LockTable, txn: Txn, n: Name): (r: bool)
    decreases |n|
    ensures r <==> exists k :: 0 < k < |n| && LockTypeOf(locks, txn, n[..k]) == SIX
  {
    if |n| == 1 then false
    else
      var p := n[..|n| - 1];
      assert forall k :: 0 < k < |p| ==> p[..k] == n[..k];
      LockTypeOf(locks, txn, p) == SIX || HasSIXAncestor(locks, txn, p)
  }

  /** isAncestor: walking up from `child` reaches `ancestor`. */
  function IsAncestor(child: Name, ancestor: Name): (r: bool)
    decreases |child|
    ensures r <==> IsStrictPrefix(ancestor, child)
  {
    if |child| == 1 then false
    else
      var p := child[..|child| - 1];
      assert forall k :: 0 <= k <= |p| ==> p[..k] == child[..k];
      p == ancestor || IsAncestor(p, ancestor)
  }

  /** The nearest strict ancestor of `n` on which `txn` holds a lock other than NL. */
  function NearestLockedAncestor(locks: LockTable, txn: Txn, n: Name): (r: Option<Name>)
    decreases |n|
    ensures r.Some? ==> IsStrictPrefix(r.value, n) && LockTypeOf(locks, txn, r.value) != NL
    ensures r.Some? ==> forall k :: |r.value| < k < |n| ==> LockTypeOf(locks, txn, n[..k]) == NL
    ensures r.None? ==> forall k :: 0 < k < |n| ==> LockTypeOf(locks, txn, n[..k]) == NL
  {
    if |n| == 1 then None
    else
      var p := n[..|n| - 1];
      assert forall k :: 0 < k < |p| ==> p[..k] == n[..k];
      if LockTypeOf(locks, txn, p) != NL then Some(p) else NearestLockedAncestor(locks, txn, p)
  }

  /** The ancestor `n[..k]` holds a lock and every context strictly between it and `n` holds none. */
  ghost predicate NearestAt(locks: LockTable, txn: Txn, n: Name, k: int) {
    && 0 < k < |n|
    && LockTypeOf(locks, txn, n[..k]) != NL
    && forall j :: k < j < |n| ==> LockTypeOf(locks, txn, n[..j]) == NL
  }

  /** getEffectiveLockType. The explicit lock of `n` itself is read and then
      ignored (LockContext.java:334); only the nearest locked strict ancestor
      decides. */
  function EffectiveLockType(locks: LockTable, txn: Txn, n: Name): (r: LockType)
    ensures r == NL || r == S || r == X
    ensures r == S <==> exists k :: NearestAt(locks, txn, n, k) && LockTypeOf(locks, txn, n[..k]) in {S, SIX}
    ensures r == X <==> exists k :: NearestAt(locks, txn, n, k) && LockTypeOf(locks, txn, n[..k]) == X
  {
    var pt := NearestLockedAncestor(locks, txn, n);
    if pt.None? then NL
    else
      var ancestorLockType := LockTypeOf(locks, txn, pt.value);
      NearestAtUnique(locks, txn, n, |pt.value|);
      if ancestorLockType == SIX then S
      else if ancestorLockType == IS || ancestorLockType == IX then NL
      else ancestorLockType
  }

  /** Only one ancestor can be the nearest locked one. */
  lemma NearestAtUnique(locks: LockTable, txn: Txn, n: Name, k: int)
    requires NearestAt(locks, txn, n, k)
    ensures forall j :: NearestAt(locks, txn, n, j) ==> j == k
  {
  }

  /** listAllDescendants: the resources strictly below `ctx` on which `txn` holds a lock. */
  function AllDescendants(locks: LockTable, txn: Txn, ctx: Name): (r: set<Name>)
    ensures forall n :: n in r <==> (txn, n) in locks && IsStrictPrefix(ctx, n)
  {
    set n | n in LocksOf(locks, txn) && IsAncestor(n, ctx)
  }

  /** sisDescendants: the resources strictly below `ctx` on which `txn` holds S or IS. */
  function SisDescendants(locks: LockTable, txn: Txn, ctx: Name): (r: set<Name>)
    ensures forall n :: n in r <==> (txn, n) in locks && locks[(txn, n)] in {S, IS} && IsStrictPrefix(ctx, n)
  {
    set n | n in LocksOf(locks, txn) && (locks[(txn, n)] == S || locks[(txn, n)] == IS) && IsAncestor(n, ctx)
  }

  lemma SisDescendantsAreDescendants(locks: LockTable, txn: Txn, ctx: Name)
    ensures SisDescendants(locks, txn, ctx) <= AllDescendants(locks, txn, ctx)
    ensures ctx !in AllDescendants(locks, txn, ctx)
  {
  }

  /** The nearest locked ancestor depends only on the kinds held on the strict ancestors. */
  lemma {:induction false} NearestDependsOnAncestors(l1: LockTable, l2: LockTable, txn: Txn, n: Name)
    requires forall k :: 0 < k < |n| ==> LockTypeOf(l1, txn, n[..k]) == LockTypeOf(l2, txn, n[..k])
    ensures NearestLockedAncestor(l1, txn, n) == NearestLockedAncestor(l2, txn, n)
    decreases |n|
  {
    if |n| > 1 {
      var p := n[..|n| - 1];
      assert forall k :: 0 < k < |p| ==> p[..k] == n[..k];
      NearestDependsOnAncestors(l1, l2, txn, p);
    }
  }

  /** Granting, changing or removing the lock of `txn` on `n` itself never
      changes the effective lock type of `n`. */
  lemma EffectiveLockTypeIgnoresOwnLock(locks: LockTable, txn: Txn, n: Name, k: LockType)
    ensures EffectiveLockType(locks[(txn, n) := k], txn, n) == EffectiveLockType(locks, txn, n)
    ensures EffectiveLockType(locks - {(txn, n)}, txn, n) == EffectiveLockType(locks, txn, n)
  {
    assert forall j :: 0 < j < |n| ==> n[..j] != n;
    NearestDependsOnAncestors(locks[(txn, n) := k], locks, txn, n);
    NearestDependsOnAncestors(locks - {(txn, n)}, locks, txn, n);
  }

  // ---------------------------------------------------- creating contexts

  /** The node `childContext` creates under `parent`: readonly, with child
      locks disabled, exactly when the parent is readonly or has child locks disabled. */
  function NewChild(parent: ContextNode): ContextNode {
    var ro := parent.childLocksDisabled || parent.readonly;
    ContextNode(ro, ro, map[])
  }

  /** The effect of `childContext(seg)` on the context of `parent`: the child
      context is added unless one of that name exists already. */
  function WithChild(cs: Contexts, parent: Name, seg: string): (r: Contexts)
    requires parent in cs
    ensures parent + [seg] in r
    ensures forall m :: m in cs ==> m in r && r[m] == cs[m]
    ensures forall m :: m in r ==> m in cs || m == parent + [seg]
    ensures parent + [seg] !in cs ==>
      r[parent + [seg]] == ContextNode(cs[parent].childLocksDisabled || cs[parent].readonly,
                                       cs[parent].childLocksDisabled || cs[parent].readonly, map[])
    ensures PrefixClosed(cs) ==> PrefixClosed(r)
    ensures CountersNonNegative(cs) ==> CountersNonNegative(r)
  {
    var c := parent + [seg];
    assert forall k :: 0 < k <= |parent| ==> c[..k] == parent[..k];
    if c in cs then cs else cs[c := NewChild(cs[parent])]
  }

  /** The effect of the lock manager's `context(seg)`: a writable root context,
      added unless it exists already. */
  function WithRoot(cs: Contexts, seg: string): (r: Contexts)
    ensures [seg] in r
    ensures forall m :: m in cs ==> m in r && r[m] == cs[m]
    ensures forall m :: m in r ==> m in cs || m == [seg]
    ensures PrefixClosed(cs) ==> PrefixClosed(r)
    ensures CountersNonNegative(cs) ==> CountersNonNegative(r)
  {
    if [seg] in cs then cs else cs[[seg] := ContextNode(false, false, map[])]
  }

  /** The effect of `fromResourceName(n)`: the contexts of `n` and of all its
      ancestors exist afterwards, and no existing context changes. */
  function Materialize(cs: Contexts, n: Name): (r: Contexts)
    requires PrefixClosed(cs)
    decreases |n|
    ensures n in r && PrefixClosed(r)
    ensures forall m :: m in cs ==> m in r && r[m] == cs[m]
    ensures forall m :: m in r ==> m in cs || (|m| <= |n| && m == n[..|m|])
    ensures CountersNonNegative(cs) ==> CountersNonNegative(r)
  {
    if |n| == 1 then
      assert n == [n[0]];
      WithRoot(cs, n[0])
    else
      var p := n[..|n| - 1];
      assert p + [n[|n| - 1]] == n;
      assert forall m :: |m| <= |p| && m == p[..|m|] ==> m == n[..|m|];
      WithChild(Materialize(cs, p), p, n[|n| - 1])
  }

  /** Materializing one more segment of `n` adds that one child. */
  lemma MaterializeSnoc(cs: Contexts, n: Name, i: nat)
    requires PrefixClosed(cs) && 1 <= i < |n|
    ensures Materialize(cs, n[..i + 1]) == WithChild(Materialize(cs, n[..i]), n[..i], n[i])
  {
    assert n[..i + 1][..i] == n[..i];
  }

  /** Looking up a context that exists creates nothing. */
  lemma {:induction false} MaterializeExisting(cs: Contexts, n: Name)
    requires PrefixClosed(cs) && n in cs
    ensures Materialize(cs, n) == cs
    decreases |n|
  {
    if |n| == 1 {
      assert n == [n[0]];
    } else {
      var p := n[..|n| - 1];
      assert p in cs;
      MaterializeExisting(cs, p);
      assert p + [n[|n| - 1]] == n;
    }
  }

  /** `childContext` is idempotent. */
  lemma ChildContextIdempotent(cs: Contexts, parent: Name, seg: string)
    requires parent in cs
    ensures WithChild(WithChild(cs, parent, seg), parent, seg) == WithChild(cs, parent, seg)
  {
  }

  /** The effect of `disableChildLocks`. */
  function WithChildLocksDisabled(cs: Contexts, ctx: Name): (r: Contexts)
    requires ctx in cs
    ensures r.Keys == cs.Keys
    ensures r[ctx] == cs[ctx].(childLocksDisabled := true)
    ensures forall m :: m in cs && m != ctx ==> r[m] == cs[m]
    ensures PrefixClosed(cs) ==> PrefixClosed(r)
    ensures CountersNonNegative(cs) ==> CountersNonNegative(r)
  {
    var r := cs[ctx := cs[ctx].(childLocksDisabled := true)];
    assert forall m, t :: m in r ==> NumChildren(r[m], t) == NumChildren(cs[m], t);
    r
  }

  /** Disabling child locks changes no existing context's readonly flag, but
      every child created afterwards is readonly. */
  lemma {:induction false} DisableChildLocksAffectsLaterChildren(cs: Contexts, ctx: Name, seg: string)
    requires ctx in cs
    ensures forall m :: m in cs ==> WithChildLocksDisabled(cs, ctx)[m].readonly == cs[m].readonly
    ensures ctx + [seg] !in cs ==> WithChild(WithChildLocksDisabled(cs, ctx), ctx, seg)[ctx + [seg]].readonly
  {
  }

  // ------------------------------------------------------ counter bookkeeping

  /** Whether `DecreaseChain(cs, txn, c)` decrements the counter of `txn` at
      `m`: `m` is `c` or an ancestor of it, and no counter from `c` up to `m`
      is zero. */
  ghost predicate OnChain(cs: Contexts, txn: Txn, c: Option<Name>, m: Name) {
    && c.Some?
    && |m| <= |c.value| && m == c.value[..|m|]
    && forall k :: |m| <= k <= |c.value| ==> c.value[..k] in cs && NumChildren(cs[c.value[..k]], txn) != 0
  }

  /** decreaseNumChildLocks(txn, c): walking up from `c`, decrement the
      counter of `txn` at each context, stopping at the first zero counter. */
  function DecreaseChain(cs: Contexts, txn: Txn, c: Option<Name>): (r: Contexts)
    requires PrefixClosed(cs) && (c.Some? ==> c.value in cs)
    decreases if c.Some? then |c.value| else 0
    ensures SameFlags(cs, r) && PrefixClosed(r)
    ensures forall m, t :: m in cs ==>
      NumChildren(r[m], t) == NumChildren(cs[m], t) - (if t == txn && OnChain(cs, txn, c, m) then 1 else 0)
  {
    if c.None? then cs
    else
      var n := c.value;
      var numLocks := NumChildren(cs[n], txn);
      if numLocks != 0 then
        var cs' := SetCount(cs, n, txn, numLocks - 1);
        DecreaseChainStep(cs, cs', txn, n);
        DecreaseChain(cs', txn, Parent(n))
      else
        assert n[..|n|] == n;
        cs
  }

  /** How the chain from `n` relates to the chain from its parent once the
      counter at `n` has been decremented. */
  lemma DecreaseChainStep(cs: Contexts, cs': Contexts, txn: Txn, n: Name)
    requires PrefixClosed(cs) && n in cs && NumChildren(cs[n], txn) != 0
    requires cs' == SetCount(cs, n, txn, NumChildren(cs[n], txn) - 1)
    ensures PrefixClosed(cs')
    ensures forall m :: m in cs && m != n ==> (OnChain(cs, txn, Some(n), m) <==> OnChain(cs', txn, Parent(n), m))
    ensures OnChain(cs, txn, Some(n), n)
    ensures forall m :: m in cs ==> !OnChain(cs', txn, Parent(n), n)
  {
    forall m | m in cs && m != n
      ensures OnChain(cs, txn, Some(n), m) <==> OnChain(cs', txn, Parent(n), m)
    {
      if OnChain(cs, txn, Some(n), m) {
        assert |m| < |n|;
        var p := n[..|n| - 1];
        assert forall k :: |m| <= k <= |p| ==> p[..k] == n[..k] && n[..k] != n;
      }
      if OnChain(cs', txn, Parent(n), m) {
        var p := n[..|n| - 1];
        assert forall k :: |m| <= k <= |p| ==> p[..k] == n[..k] && n[..k] != n;
        assert n[..|n|] == n;
      }
    }
    assert n[..|n|] == n;
  }

  /** Decrementing along the chain never makes a counter negative. */
  lemma DecreaseChainKeepsCounters(cs: Contexts, txn: Txn, c: Option<Name>)
    requires PrefixClosed(cs) && CountersNonNegative(cs) && (c.Some? ==> c.value in cs)
    ensures CountersNonNegative(DecreaseChain(cs, txn, c))
  {
    var r := DecreaseChain(cs, txn, c);
    forall m, t | m in r
      ensures NumChildren(r[m], t) >= 0
    {
      if t == txn && OnChain(cs, txn, c, m) {
        assert NumChildren(cs[c.value[..|m|]], txn) != 0;
      }
    }
  }

  // ------------------------------------------------------------ operations

  /** acquire(txn, kind) on the context `ctx`; AcquireConditions states its behaviour. */
  function AcquireStep(s: TreeState, ctx: Name, txn: Txn, kind: LockType): (r: Step)
    requires WellFormed(s) && ctx in s.contexts
    ensures WellFormed(r.state) && SameFlags(s.contexts, r.state.contexts)
    ensures r.outcome.Err? ==> r.state == s
  {
    if s.contexts[ctx].readonly then Step(Err(UnsupportedOperation), s)
    else if HasSIXAncestor(s.locks, txn, ctx) && (kind == IS || kind == S) then Step(Err(InvalidLock), s)
    else if |ctx| > 1 && !CanBeParentLock(LockTypeOf(s.locks, txn, ctx[..|ctx| - 1]), kind) then Step(Err(InvalidLock), s)
    else if (txn, ctx) in s.locks then Step(Err(DuplicateLockRequest), s)
    else
      var locks := s.locks[(txn, ctx) := kind];
      if |ctx| == 1 then Step(Ok, TreeState(s.contexts, locks))
      else
        var p := ctx[..|ctx| - 1];
        Step(Ok, TreeState(SetCount(s.contexts, p, txn, NumChildren(s.contexts[p], txn) + 1), locks))
  }

  /** When acquire throws, and what it changes when it does not. */
  lemma AcquireConditions(s: TreeState, ctx: Name, txn: Txn, kind: LockType)
    requires WellFormed(s) && ctx in s.contexts
    ensures var r := AcquireStep(s, ctx, txn, kind);
      && (s.contexts[ctx].readonly ==> r.outcome == Err(UnsupportedOperation))
      && (!s.contexts[ctx].readonly && (kind == IS || kind == S)
          && (exists k :: 0 < k < |ctx| && LockTypeOf(s.locks, txn, ctx[..k]) == SIX)
          ==> r.outcome == Err(InvalidLock))
      && (!s.contexts[ctx].readonly && |ctx| > 1
          && !CanBeParentLock(LockTypeOf(s.locks, txn, ctx[..|ctx| - 1]), kind)
          ==> r.outcome == Err(InvalidLock))
      && (r.outcome.Ok? <==>
            && !s.contexts[ctx].readonly
            && !(HasSIXAncestor(s.locks, txn, ctx) && (kind == IS || kind == S))
            && (|ctx| > 1 ==> CanBeParentLock(LockTypeOf(s.locks, txn, ctx[..|ctx| - 1]), kind))
            && (txn, ctx) !in s.locks)
      && (r.outcome.Ok? ==> r.state.locks == s.locks[(txn, ctx) := kind])
      // only the counter of `txn` at the immediate parent changes, by exactly one
      && (r.outcome.Ok? ==> forall m, t :: m in s.contexts ==>
            NumChildren(r.state.contexts[m], t)
            == NumChildren(s.contexts[m], t) + (if t == txn && |ctx| > 1 && m == ctx[..|ctx| - 1] then 1 else 0))
  {
  }

  /** release(txn) on the context `ctx`; ReleaseConditions states its behaviour. */
  function ReleaseStep(s: TreeState, ctx: Name, txn: Txn): (r: Step)
    requires WellFormed(s) && ctx in s.contexts
    ensures WellFormed(r.state) && SameFlags(s.contexts, r.state.contexts)
    ensures r.outcome.Err? ==> r.state == s
  {
    if s.contexts[ctx].readonly then Step(Err(UnsupportedOperation), s)
    else if LockTypeOf(s.locks, txn, ctx) == NL then Step(Err(NoLockHeld), s)
    else if NumChildren(s.contexts[ctx], txn) != 0 then Step(Err(InvalidLock), s)
    else
      DecreaseChainKeepsCounters(s.contexts, txn, Parent(ctx));
      Step(Ok, TreeState(DecreaseChain(s.contexts, txn, Parent(ctx)), s.locks - {(txn, ctx)}))
  }

  /** When release throws, and what it changes when it does not. */
  lemma ReleaseConditions(s: TreeState, ctx: Name, txn: Txn)
    requires WellFormed(s) && ctx in s.contexts
    ensures var r := ReleaseStep(s, ctx, txn);
      && (s.contexts[ctx].readonly ==> r.outcome == Err(UnsupportedOperation))
      && (!s.contexts[ctx].readonly && LockTypeOf(s.locks, txn, ctx) == NL ==> r.outcome == Err(NoLockHeld))
      && (!s.contexts[ctx].readonly && LockTypeOf(s.locks, txn, ctx) != NL && NumChildren(s.contexts[ctx], txn) != 0
          ==> r.outcome == Err(InvalidLock))
      && (r.outcome.Ok? <==>
            !s.contexts[ctx].readonly && LockTypeOf(s.locks, txn, ctx) != NL && NumChildren(s.contexts[ctx], txn) == 0)
      // only this one entry leaves the table
      && (r.outcome.Ok? ==> (txn, ctx) in s.locks && r.state.locks == s.locks - {(txn, ctx)})
      && (r.outcome.Ok? ==> r.state.contexts == DecreaseChain(s.contexts, txn, Parent(ctx)))
  {
  }

  /** promote(txn, newKind) on the context `ctx`. For a context with a parent it
      checks the context's OWN explicit kind as if it were the parent's
      (LockContext.java:185); it never changes the lock table or a counter. */
  function PromoteStep(s: TreeState, ctx: Name, txn: Txn, newKind: LockType): (r: Step)
    requires ctx in s.contexts
    ensures r.state == s
    ensures s.contexts[ctx].readonly ==> r.outcome == Err(UnsupportedOperation)
    ensures r.outcome == Err(InvalidLock) <==>
              !s.contexts[ctx].readonly && |ctx| > 1 && !CanBeParentLock(LockTypeOf(s.locks, txn, ctx), newKind)
    ensures r.outcome.Ok? <==> !s.contexts[ctx].readonly && (|ctx| == 1 || CanBeParentLock(LockTypeOf(s.locks, txn, ctx), newKind))
  {
    if s.contexts[ctx].readonly then Step(Err(UnsupportedOperation), s)
    else if |ctx| > 1 && !CanBeParentLock(LockTypeOf(s.locks, txn, ctx), newKind) then Step(Err(InvalidLock), s)
    else Step(Ok, s)
  }

  /** escalate(txn) on the context `ctx`. Its mutating branches
      (LockContext.java:282-300) need an intent kind as the effective kind,
      which EffectiveLockType never returns; so escalate changes nothing. */
  function EscalateStep(s: TreeState, ctx: Name, txn: Txn): (r: Step)
    requires ctx in s.contexts
    ensures r.state == s
    ensures s.contexts[ctx].readonly ==> r.outcome == Err(UnsupportedOperation)
    ensures r.outcome == Err(NoLockHeld) <==> !s.contexts[ctx].readonly && EffectiveLockType(s.locks, txn, ctx) == NL
    ensures r.outcome.Ok? <==> !s.contexts[ctx].readonly && EffectiveLockType(s.locks, txn, ctx) != NL
  {
    if s.contexts[ctx].readonly then Step(Err(UnsupportedOperation), s)
    else
      var kind := EffectiveLockType(s.locks, txn, ctx);
      if kind == NL then Step(Err(NoLockHeld), s)
      else if kind == S || kind == X then Step(Ok, s)
      else assert false; Step(Ok, s)
  }

  /** The contexts of one lock manager, with the operations of LockContext. */
  class ContextTree {
    const lockman: LockManager
    var contexts: Contexts

    constructor (lockman: LockManager)
      requires lockman.locks == map[]
      ensures this.lockman == lockman && contexts == map[] && Valid()
    {
      this.lockman := lockman;
      contexts := map[];
    }

    ghost function State(): TreeState
      reads this, lockman
    {
      TreeState(contexts, lockman.locks)
    }

    ghost predicate Valid()
      reads this, lockman
    {
      WellFormed(State())
    }

    /** getExplicitLockType. */
    function ExplicitLockType(ctx: Name, txn: Txn): LockType
      reads lockman
    {
      lockman.GetLockType(txn, ctx)
    }

    /** getNumChildren. */
    function GetNumChildren(ctx: Name, txn: Txn): int
      requires ctx in contexts
      reads this
    {
      NumChildren(contexts[ctx], txn)
    }

    /** The lock manager's `context(seg)`: the root context named `seg`. */
    method RootContext(seg: string) returns (c: Name)
      requires Valid()
      modifies this
      ensures c == [seg] && contexts == WithRoot(old(contexts), seg)
      ensures Valid()
    {
      c := [seg];
      if c !in contexts {
        contexts := contexts[c := ContextNode(false, false, map[])];
      }
    }

    /** childContext(seg) on the context `parent`. */
    method ChildContext(parent: Name, seg: string) returns (c: Name)
      requires Valid() && parent in contexts
      modifies this
      ensures c == parent + [seg] && contexts == WithChild(old(contexts), parent, seg)
      ensures Valid()
    {
      var temp := NewChild(contexts[parent]);
      c := parent + [seg];
      if c !in contexts {
        contexts := contexts[c := temp];
      }
    }

    /** fromResourceName(n): from the root down, the context of each prefix of `n`. */
    method FromResourceName(n: Name) returns (c: Name)
      requires Valid()
      modifies this
      ensures c == n && contexts == Materialize(old(contexts), n)
      ensures Valid()
    {
      c := RootContext(n[0]);
      var i := 1;
      while i < |n|
        invariant 1 <= i <= |n|
        invariant Valid() && c == n[..i]
        invariant contexts == Materialize(old(contexts), n[..i])
      {
        MaterializeSnoc(old(contexts), n, i);
        c := ChildContext(c, n[i]);
        i := i + 1;
      }
      assert n[..|n|] == n;
    }

    /** disableChildLocks on the context `ctx`. */
    method DisableChildLocks(ctx: Name)
      requires Valid() && ctx in contexts
      modifies this
      ensures contexts == WithChildLocksDisabled(old(contexts), ctx)
      ensures Valid()
    {
      contexts := contexts[ctx := contexts[ctx].(childLocksDisabled := true)];
    }

    method Acquire(ctx: Name, txn: Txn, kind: LockType) returns (r: Outcome)
      requires Valid() && ctx in contexts
      modifies this, lockman
      ensures Step(r, State()) == AcquireStep(old(State()), ctx, txn, kind)
      ensures Valid()
    {
      if contexts[ctx].readonly {
        return Err(UnsupportedOperation);
      }
      if HasSIXAncestor(lockman.locks, txn, ctx) && (kind == IS || kind == S) {
        return Err(InvalidLock);
      }
      if |ctx| > 1 {
        var parentLockType := lockman.GetLockType(txn, ctx[..|ctx| - 1]);
        if !CanBeParentLock(parentLockType, kind) {
          return Err(InvalidLock);
        }
      }
      r := lockman.Acquire(txn, ctx, kind);
      if r.Err? {
        return;
      }
      if |ctx| > 1 {
        var p := ctx[..|ctx| - 1];
        var numLocks := NumChildren(contexts[p], txn);
        contexts := contexts[p := contexts[p].(numChildLocks := contexts[p].numChildLocks[txn := numLocks + 1])];
      }
    }

    method Release(ctx: Name, txn: Txn) returns (r: Outcome)
      requires Valid() && ctx in contexts
      modifies this, lockman
      ensures Step(r, State()) == ReleaseStep(old(State()), ctx, txn)
      ensures Valid()
    {
      if contexts[ctx].readonly {
        return Err(UnsupportedOperation);
      }
      if lockman.GetLockType(txn, ctx) == NL {
        return Err(NoLockHeld);
      }
      if NumChildren(contexts[ctx], txn) != 0 {
        return Err(InvalidLock);
      }
      r := lockman.Release(txn, ctx);
      DecreaseNumChildLocks(txn, Parent(ctx));
      DecreaseChainKeepsCounters(old(contexts), txn, Parent(ctx));
    }

    /** decreaseNumChildLocks(txn, c). */
    method DecreaseNumChildLocks(txn: Txn, c: Option<Name>)
      requires PrefixClosed(contexts) && (c.Some? ==> c.value in contexts)
      modifies this
      decreases if c.Some? then |c.value| else 0
      ensures contexts == DecreaseChain(old(contexts), txn, c)
    {
      if c.None? {
        return;
      }
      var n := c.value;
      var numLocks := NumChildren(contexts[n], txn);
      if numLocks != 0 {
        contexts := contexts[n := contexts[n].(numChildLocks := contexts[n].numChildLocks[txn := numLocks - 1])];
        DecreaseNumChildLocks(txn, Parent(n));
      }
    }

    /** promote(txn, newKind). The S and IS descendants are computed for a
        promotion to SIX and then not used. */
    method Promote(ctx: Name, txn: Txn, newKind: LockType) returns (r: Outcome)
      requires ctx in contexts
      ensures Step(r, State()) == PromoteStep(State(), ctx, txn, newKind)
    {
      if contexts[ctx].readonly {
        return Err(UnsupportedOperation);
      }
      if |ctx| > 1 {
        var parentLockType := lockman.GetLockType(txn, ctx);
        if !CanBeParentLock(parentLockType, newKind) {
          return Err(InvalidLock);
        }
      }
      if newKind == SIX {
        var resourceNames := SisDescendants(lockman.locks, txn, ctx);
      }
      return Ok;
    }

    method Escalate(ctx: Name, txn: Txn) returns (r: Outcome)
      requires ctx in contexts
      ensures Step(r, State()) == EscalateStep(State(), ctx, txn)
    {
      if contexts[ctx].readonly {
        return Err(UnsupportedOperation);
      }
      var kind := EffectiveLockType(lockman.locks, txn, ctx);
      if kind == NL {
        return Err(NoLockHeld);
      }
      if kind == S || kind == X {
        return Ok;
      }
      assert false;
      r := Ok;
    }
  }
}

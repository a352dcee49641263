/** Properties of the calls ensureSufficientLockHeld makes: their order, the
    calls each context receives, and what the calls do on a chain of contexts
    where the transaction holds nothing yet. */
module LockPlans {
  import opened Wrappers
  import opened LockTypes
  import opened Locking
  import opened LockContexts
  import opened LockUtil

  // ------------------------------------------------------ order of the calls

  /** The calls of `p` made on the context `n`, in their order. */
  function On(p: seq<Action>, n: Name): (r: seq<Action>)
    ensures |r| <= |p| && forall j :: 0 <= j < |r| ==> r[j].ctx == n
  {
    if p == [] then [] else (if p[0].ctx == n then [p[0]] else []) + On(p[1..], n)
  }

  lemma {:induction false} OnAppend(p: seq<Action>, q: seq<Action>, n: Name)
    ensures On(p + q, n) == On(p, n) + On(q, n)
  {
    if p == [] {
      assert p + q == q;
    } else {
      assert (p + q)[1..] == p[1..] + q;
      OnAppend(p[1..], q, n);
    }
  }

  lemma {:induction false} OnAbsent(p: seq<Action>, n: Name)
    requires forall j :: 0 <= j < |p| ==> p[j].ctx != n
    ensures On(p, n) == []
  {
    if p != [] {
      OnAbsent(p[1..], n);
    }
  }

  lemma {:induction false} OnAll(p: seq<Action>, n: Name)
    requires forall j :: 0 <= j < |p| ==> p[j].ctx == n
    ensures On(p, n) == p
  {
    if p != [] {
      OnAll(p[1..], n);
      assert p == [p[0]] + p[1..];
    }
  }

  /** Names whose lengths grow strictly along the sequence, as ancestors do. */
  ghost predicate Increasing(ns: seq<Name>) {
    forall i, j :: 0 <= i < j < |ns| ==> |ns[i]| < |ns[j]|
  }

  /** Calls on contexts whose names grow strictly along the sequence. */
  ghost predicate IncreasingCtx(p: seq<Action>) {
    forall i, j :: 0 <= i < j < |p| ==> |p[i].ctx| < |p[j].ctx|
  }

  /** The calls on the ancestors touch them in the order of the ancestors,
      each at most once. */
  lemma {:induction false} AncestorActionsIncreasing(locks: LockTable, txn: Txn, ancestors: seq<Name>, request: LockType)
    requires Increasing(ancestors)
    ensures IncreasingCtx(AncestorActions(locks, txn, ancestors, request))
  {
    if ancestors != [] {
      var a := AncestorAction(ancestors[0], LockTypeOf(locks, txn, ancestors[0]), request);
      var rest := AncestorActions(locks, txn, ancestors[1..], request);
      assert Increasing(ancestors[1..]);
      AncestorActionsIncreasing(locks, txn, ancestors[1..], request);
      LaterActionsLonger(locks, txn, ancestors, request);
      IncreasingCons(a, rest, ancestors[0]);
    }
  }

  /** The calls on the ancestors after the first are on longer names. */
  lemma LaterActionsLonger(locks: LockTable, txn: Txn, ancestors: seq<Name>, request: LockType)
    requires Increasing(ancestors) && ancestors != []
    ensures var rest := AncestorActions(locks, txn, ancestors[1..], request);
      forall j :: 0 <= j < |rest| ==> |ancestors[0]| < |rest[j].ctx|
  {
    var rest := AncestorActions(locks, txn, ancestors[1..], request);
    forall j | 0 <= j < |rest|
      ensures |ancestors[0]| < |rest[j].ctx|
    {
      var k :| 0 <= k < |ancestors[1..]| && ancestors[1..][k] == rest[j].ctx;
      assert ancestors[1..][k] == ancestors[k + 1];
    }
  }

  /** At most one call on `x` followed by increasing calls on longer names. */
  lemma IncreasingCons(a: seq<Action>, rest: seq<Action>, x: Name)
    requires |a| <= 1 && (forall j :: 0 <= j < |a| ==> a[j].ctx == x)
    requires IncreasingCtx(rest) && forall j :: 0 <= j < |rest| ==> |x| < |rest[j].ctx|
    ensures IncreasingCtx(a + rest)
  {
    var r := a + rest;
    forall i, j | 0 <= i < j < |r|
      ensures |r[i].ctx| < |r[j].ctx|
    {
      assert r[j] == rest[j - |a|];
      if i >= |a| {
        assert r[i] == rest[i - |a|];
      } else {
        assert r[i] == a[i];
      }
    }
  }

  /** The calls on one ancestor are the ones its explicit kind decides. */
  lemma {:induction false} OnAncestorActions(locks: LockTable, txn: Txn, ancestors: seq<Name>, request: LockType, i: nat)
    requires Increasing(ancestors) && i < |ancestors|
    ensures On(AncestorActions(locks, txn, ancestors, request), ancestors[i])
            == AncestorAction(ancestors[i], LockTypeOf(locks, txn, ancestors[i]), request)
  {
    var a := AncestorAction(ancestors[0], LockTypeOf(locks, txn, ancestors[0]), request);
    var rest := AncestorActions(locks, txn, ancestors[1..], request);
    OnAppend(a, rest, ancestors[i]);
    if i == 0 {
      OnAll(a, ancestors[0]);
      LaterActionsLonger(locks, txn, ancestors, request);
      OnAbsent(rest, ancestors[0]);
      assert a + [] == a;
    } else {
      assert |ancestors[0]| < |ancestors[i]|;
      OnAbsent(a, ancestors[i]);
      assert ancestors[1..][i - 1] == ancestors[i];
      OnAncestorActions(locks, txn, ancestors[1..], request, i - 1);
    }
  }

  lemma AncestorsShape(c: Name)
    ensures |Ancestors(c)| == |c| - 1 && Increasing(Ancestors(c))
    ensures forall k :: 0 < k < |c| ==> Ancestors(c)[k - 1] == c[..k]
  {
  }

  /** Every call on an ancestor comes before every call on the context itself,
      and the ancestors are visited root first, each at most once. */
  lemma PlanOrder(locks: LockTable, txn: Txn, c: Name, request: LockType)
    ensures var p := Plan(locks, txn, c, request);
      && (forall i, j :: 0 <= i < j < |p| && p[i].ctx == c ==> p[j].ctx == c)
      && (forall i, j :: 0 <= i < j < |p| && p[j].ctx != c ==> |p[i].ctx| < |p[j].ctx| < |c|)
  {
    var aa := AncestorActions(locks, txn, Ancestors(c), request);
    var ca := ContextActions(c, LockTypeOf(locks, txn, c), request);
    AncestorsShape(c);
    AncestorActionsIncreasing(locks, txn, Ancestors(c), request);
    forall j | 0 <= j < |aa|
      ensures |aa[j].ctx| < |c|
    {
      var k :| 0 <= k < |Ancestors(c)| && Ancestors(c)[k] == aa[j].ctx;
    }
    OrderedConcat(aa, ca, c);
  }

  /** Increasing calls on names shorter than `c` followed by calls on `c`. */
  lemma OrderedConcat(aa: seq<Action>, ca: seq<Action>, c: Name)
    requires IncreasingCtx(aa) && forall j :: 0 <= j < |aa| ==> |aa[j].ctx| < |c|
    requires forall j :: 0 <= j < |ca| ==> ca[j].ctx == c
    ensures var p := aa + ca;
      && (forall i, j :: 0 <= i < j < |p| && p[i].ctx == c ==> p[j].ctx == c)
      && (forall i, j :: 0 <= i < j < |p| && p[j].ctx != c ==> |p[i].ctx| < |p[j].ctx| < |c|)
  {
    var p := aa + ca;
    forall i, j | 0 <= i < j < |p| && p[j].ctx != c
      ensures |p[i].ctx| < |p[j].ctx| < |c|
    {
      assert p[j] == aa[j] && p[i] == aa[i];
    }
    forall i, j | 0 <= i < j < |p| && p[i].ctx == c
      ensures p[j].ctx == c
    {
      assert p[j] == ca[j - |aa|];
    }
  }

  /** For every strict ancestor, the calls it receives are the ones its own
      explicit kind decides: for an S request acquire(IS) exactly when it
      holds NL; for X and NL requests acquire(IX) on NL, promote(IX) on IS,
      promote(SIX) on S and nothing otherwise. */
  lemma PlanOnAncestor(locks: LockTable, txn: Txn, c: Name, request: LockType, k: nat)
    requires 0 < k < |c|
    ensures On(Plan(locks, txn, c, request), c[..k]) == AncestorAction(c[..k], LockTypeOf(locks, txn, c[..k]), request)
    ensures request == S ==> On(Plan(locks, txn, c, request), c[..k])
                             == if LockTypeOf(locks, txn, c[..k]) == NL then [AcquireAt(c[..k], IS)] else []
  {
    OnPlanAncestor(locks, txn, c, request, k);
  }

  lemma OnPlanAncestor(locks: LockTable, txn: Txn, c: Name, request: LockType, k: nat)
    requires 0 < k < |c|
    ensures On(Plan(locks, txn, c, request), c[..k]) == AncestorAction(c[..k], LockTypeOf(locks, txn, c[..k]), request)
  {
    var aa := AncestorActions(locks, txn, Ancestors(c), request);
    var ca := ContextActions(c, LockTypeOf(locks, txn, c), request);
    AncestorsShape(c);
    OnAppend(aa, ca, c[..k]);
    OnAncestorActions(locks, txn, Ancestors(c), request, k - 1);
    assert forall j :: 0 <= j < |ca| ==> ca[j].ctx == c;
    OnAbsent(ca, c[..k]);
    assert On(aa, c[..k]) + [] == On(aa, c[..k]);
  }

  /** The calls on the context itself: for an S request the S target calls
      followed by the final block, for X and NL requests the final block. */
  lemma PlanOnTarget(locks: LockTable, txn: Txn, c: Name, request: LockType)
    ensures On(Plan(locks, txn, c, request), c) == ContextActions(c, LockTypeOf(locks, txn, c), request)
  {
    var aa := AncestorActions(locks, txn, Ancestors(c), request);
    var ca := ContextActions(c, LockTypeOf(locks, txn, c), request);
    AncestorsShape(c);
    OnAppend(aa, ca, c);
    forall j | 0 <= j < |aa|
      ensures aa[j].ctx != c
    {
      var k :| 0 <= k < |Ancestors(c)| && Ancestors(c)[k] == aa[j].ctx;
    }
    OnAbsent(aa, c);
    assert forall j :: 0 <= j < |ca| ==> ca[j].ctx == c;
    OnAll(ca, c);
  }

  // ------------------------------------------------------ a chain where the transaction holds nothing

  /** The transaction holds no lock on `c` or on any of its ancestors, and
      none of them is readonly. */
  ghost predicate FreeChain(s: TreeState, txn: Txn, c: Name) {
    && c in s.contexts
    && forall k :: 0 < k <= |c| ==> c[..k] in s.contexts && !s.contexts[c[..k]].readonly && (txn, c[..k]) !in s.locks
  }

  /** The intent kind the ancestors of a free chain receive for a request. */
  function Intent(request: LockType): (r: LockType)
    ensures r == IS <==> request == S
    ensures r == IX <==> request != S
  {
    if request == S then IS else IX
  }

  /** `locks` with `kind` granted to `txn` on the first `i` names of the chain
      `c[..1]`, `c[..2]`, ... */
  function Granted(locks: LockTable, txn: Txn, c: Name, i: nat, kind: LockType): LockTable
    requires i <= |c|
  {
    if i == 0 then locks else Granted(locks, txn, c, i - 1, kind)[(txn, c[..i]) := kind]
  }

  /** Looking a name of the chain up after the grants. */
  lemma {:induction false} GrantedAt(locks: LockTable, txn: Txn, c: Name, i: nat, kind: LockType, j: nat)
    requires i <= |c| && 0 < j <= |c|
    ensures (txn, c[..j]) in Granted(locks, txn, c, i, kind) <==> j <= i || (txn, c[..j]) in locks
    ensures LockTypeOf(Granted(locks, txn, c, i, kind), txn, c[..j])
            == if j <= i then kind else LockTypeOf(locks, txn, c[..j])
  {
    if i > 0 {
      GrantedAt(locks, txn, c, i - 1, kind, j);
      assert |c[..j]| == j && |c[..i]| == i;
    }
  }

  /** acquire(kind) on each of the first `i` names of the chain, root first. */
  function Acquires(c: Name, i: nat, kind: LockType): (r: seq<Action>)
    requires i <= |c|
    ensures |r| == i && forall j :: 0 <= j < i ==> r[j] == AcquireAt(c[..j + 1], kind)
  {
    if i == 0 then [] else Acquires(c, i - 1, kind) + [AcquireAt(c[..i], kind)]
  }

  /** When the transaction holds nothing on the strict ancestors, every
      ancestor receives one acquire of the intent kind. */
  lemma {:induction false} FreeAncestorActions(locks: LockTable, txn: Txn, c: Name, request: LockType, i: nat)
    requires i < |c| && forall k :: 0 < k < |c| ==> (txn, c[..k]) !in locks
    ensures AncestorActions(locks, txn, Ancestors(c)[..i], request) == Acquires(c, i, Intent(request))
  {
    AncestorsShape(c);
    if i == 0 {
      assert Ancestors(c)[..0] == [];
    } else {
      FreeAncestorActions(locks, txn, c, request, i - 1);
      AncestorActionsStep(locks, txn, Ancestors(c), i - 1, request);
      assert Ancestors(c)[i - 1] == c[..i];
    }
  }

  /** No name of the chain holds SIX after intent grants. */
  lemma NoSIXAfterGrants(s: TreeState, txn: Txn, c: Name, kind: LockType, i: nat, m: nat)
    requires FreeChain(s, txn, c) && (kind == IS || kind == IX) && i <= |c| && 0 < m <= |c|
    ensures !HasSIXAncestor(Granted(s.locks, txn, c, i, kind), txn, c[..m])
  {
    forall k | 0 < k < m
      ensures LockTypeOf(Granted(s.locks, txn, c, i, kind), txn, c[..m][..k]) != SIX
    {
      assert c[..m][..k] == c[..k];
      GrantedAt(s.locks, txn, c, i, kind, k);
    }
  }

  /** Acquiring an intent kind root first down a free chain succeeds at every
      step and grants exactly those locks. */
  lemma {:induction false} FreeAcquires(s: TreeState, txn: Txn, c: Name, kind: LockType, i: nat)
    requires WellFormed(s) && FreeChain(s, txn, c) && (kind == IS || kind == IX) && i <= |c|
    ensures Targets(s, Acquires(c, i, kind))
    ensures RunPlan(s, txn, Acquires(c, i, kind)).outcome == Ok
    ensures RunPlan(s, txn, Acquires(c, i, kind)).state.locks == Granted(s.locks, txn, c, i, kind)
  {
    if i == 0 {
      assert Acquires(c, 0, kind) == [];
    } else {
      FreeAcquires(s, txn, c, kind, i - 1);
      var p := Acquires(c, i - 1, kind);
      var a := AcquireAt(c[..i], kind);
      var mid := RunPlan(s, txn, p).state;
      assert RunPlan(s, txn, p) == Step(Ok, mid);
      FreeAcquireOne(s, txn, c, kind, i, mid);
      Advance(s, txn, p, a, mid, Apply(mid, txn, a));
      assert Acquires(c, i, kind) == p + [a];
    }
  }

  /** The `i`-th acquire down a free chain, after the ones above it, succeeds. */
  lemma FreeAcquireOne(s: TreeState, txn: Txn, c: Name, kind: LockType, i: nat, mid: TreeState)
    requires FreeChain(s, txn, c) && (kind == IS || kind == IX) && 0 < i <= |c|
    requires WellFormed(mid) && SameFlags(s.contexts, mid.contexts) && mid.locks == Granted(s.locks, txn, c, i - 1, kind)
    ensures c[..i] in mid.contexts
    ensures Apply(mid, txn, AcquireAt(c[..i], kind)).outcome == Ok
    ensures Apply(mid, txn, AcquireAt(c[..i], kind)).state.locks == Granted(s.locks, txn, c, i, kind)
  {
    NoSIXAfterGrants(s, txn, c, kind, i - 1, i);
    if i > 1 {
      assert c[..i][..i - 1] == c[..i - 1];
      GrantedAt(s.locks, txn, c, i - 1, kind, i - 1);
    }
    GrantedAt(s.locks, txn, c, i - 1, kind, i);
    AcquireGrants(mid, c[..i], txn, kind);
  }

  /** An acquire that meets every condition of acquire() grants the lock. */
  lemma AcquireGrants(s: TreeState, ctx: Name, txn: Txn, kind: LockType)
    requires WellFormed(s) && ctx in s.contexts && !s.contexts[ctx].readonly
    requires !(HasSIXAncestor(s.locks, txn, ctx) && (kind == IS || kind == S))
    requires |ctx| > 1 ==> CanBeParentLock(LockTypeOf(s.locks, txn, ctx[..|ctx| - 1]), kind)
    requires (txn, ctx) !in s.locks
    ensures Apply(s, txn, AcquireAt(ctx, kind)).outcome == Ok
    ensures Apply(s, txn, AcquireAt(ctx, kind)).state.locks == s.locks[(txn, ctx) := kind]
  {
    AcquireConditions(s, ctx, txn, kind);
  }

  /** Acquiring the intent kind on every strict ancestor and then `last` on
      the context itself succeeds when the intent kind permits `last`. */
  lemma FreeChainGrant(s: TreeState, txn: Txn, c: Name, kind: LockType, last: LockType)
    requires WellFormed(s) && FreeChain(s, txn, c) && (kind == IS || kind == IX)
    requires |c| > 1 ==> CanBeParentLock(kind, last)
    ensures Targets(s, Acquires(c, |c| - 1, kind) + [AcquireAt(c, last)])
    ensures RunPlan(s, txn, Acquires(c, |c| - 1, kind) + [AcquireAt(c, last)]).outcome == Ok
    ensures RunPlan(s, txn, Acquires(c, |c| - 1, kind) + [AcquireAt(c, last)]).state.locks
            == Granted(s.locks, txn, c, |c| - 1, kind)[(txn, c) := last]
  {
    var n := |c| - 1;
    var p := Acquires(c, n, kind);
    FreeAcquires(s, txn, c, kind, n);
    var mid := RunPlan(s, txn, p).state;
    assert RunPlan(s, txn, p) == Step(Ok, mid);
    assert c[..|c|] == c;
    NoSIXAfterGrants(s, txn, c, kind, n, |c|);
    if n > 0 {
      assert c[..n] == c[..|c|][..n];
      GrantedAt(s.locks, txn, c, n, kind, n);
    }
    GrantedAt(s.locks, txn, c, n, kind, |c|);
    AcquireConditions(mid, c, txn, last);
    Advance(s, txn, p, AcquireAt(c, last), mid, Apply(mid, txn, AcquireAt(c, last)));
  }

  /** On a free chain the context holds NL and every strict ancestor
      receives one acquire of the intent kind. */
  lemma FreeChainStart(s: TreeState, txn: Txn, c: Name, request: LockType)
    requires FreeChain(s, txn, c)
    ensures AncestorActions(s.locks, txn, Ancestors(c), request) == Acquires(c, |c| - 1, Intent(request))
    ensures LockTypeOf(s.locks, txn, c) == NL
  {
    AncestorsShape(c);
    assert Ancestors(c)[..|c| - 1] == Ancestors(c);
    FreeAncestorActions(s.locks, txn, c, request, |c| - 1);
    assert c[..|c|] == c;
  }

  /** The calls of a request on a free chain, as written. */
  lemma FreePlan(s: TreeState, txn: Txn, c: Name, request: LockType)
    requires FreeChain(s, txn, c)
    ensures Plan(s.locks, txn, c, request)
            == Acquires(c, |c| - 1, Intent(request))
               + (if request == S then [AcquireAt(c, S), AcquireAt(c, X)] else [AcquireAt(c, X)])
  {
    FreeChainStart(s, txn, c, request);
    var explicit := LockTypeOf(s.locks, txn, c);
    assert ContextActions(c, explicit, request)
           == if request == S then [AcquireAt(c, S), AcquireAt(c, X)] else [AcquireAt(c, X)];
  }

  /** The calls of a request on a free chain, corrected. */
  lemma FreeCorrectedPlan(s: TreeState, txn: Txn, c: Name, request: LockType)
    requires FreeChain(s, txn, c)
    ensures CorrectedPlan(s.locks, txn, c, request)
            == Acquires(c, |c| - 1, Intent(request)) + [AcquireAt(c, if request == S then S else X)]
  {
    FreeChainStart(s, txn, c, request);
  }

  /** After the grants down a chain: `kind` on the strict ancestors, `last`
      on the context. */
  lemma GrantedChainAt(locks: LockTable, txn: Txn, c: Name, kind: LockType, last: LockType, k: nat)
    requires 0 < k <= |c|
    ensures LockTypeOf(Granted(locks, txn, c, |c| - 1, kind)[(txn, c) := last], txn, c[..k])
            == if k == |c| then last else kind
  {
    if k < |c| {
      GrantedAt(locks, txn, c, |c| - 1, kind, k);
      assert |c[..k]| == k;
    } else {
      assert c[..k] == c;
    }
  }

  /** Every lock on the chain `c` is permitted by the lock on its parent. */
  ghost predicate ParentsPermit(locks: LockTable, txn: Txn, c: Name) {
    forall k :: 0 < k < |c| ==> CanBeParentLock(LockTypeOf(locks, txn, c[..k]), LockTypeOf(locks, txn, c[..k + 1]))
  }

  lemma GrantedChainPermits(locks: LockTable, txn: Txn, c: Name, kind: LockType, last: LockType)
    requires CanBeParentLock(kind, kind) && CanBeParentLock(kind, last)
    ensures ParentsPermit(Granted(locks, txn, c, |c| - 1, kind)[(txn, c) := last], txn, c)
  {
    forall k | 0 < k < |c|
      ensures CanBeParentLock(LockTypeOf(Granted(locks, txn, c, |c| - 1, kind)[(txn, c) := last], txn, c[..k]),
                              LockTypeOf(Granted(locks, txn, c, |c| - 1, kind)[(txn, c) := last], txn, c[..k + 1]))
    {
      GrantedChainAt(locks, txn, c, kind, last, k);
      GrantedChainAt(locks, txn, c, kind, last, k + 1);
    }
  }

  /** acquire(X) on a context that already holds a lock throws: InvalidLock
      when the parent holds IS, DuplicateLockRequest at the root. */
  lemma AcquireXUnderIS(s: TreeState, txn: Txn, c: Name)
    requires WellFormed(s) && c in s.contexts && !s.contexts[c].readonly && (txn, c) in s.locks
    requires |c| > 1 ==> LockTypeOf(s.locks, txn, c[..|c| - 1]) == IS
    ensures AcquireStep(s, c, txn, X) == Step(Err(if |c| > 1 then InvalidLock else DuplicateLockRequest), s)
  {
  }

  /** FINDING, as written: an S request on a context where the transaction
      holds nothing acquires IS on the ancestors and S on the context, and
      then the final block asks for X as well, which throws: InvalidLock
      because an IS parent cannot parent X, or DuplicateLockRequest at the
      root. The S lock stays granted although the call threw. */
  lemma SharedRequestOnFreeChainThrows(s: TreeState, txn: Txn, c: Name)
    requires WellFormed(s) && FreeChain(s, txn, c)
    ensures Ensure(s, Some(txn), Some(c), S).outcome == Err(if |c| > 1 then InvalidLock else DuplicateLockRequest)
    ensures Ensure(s, Some(txn), Some(c), S).state.locks == Granted(s.locks, txn, c, |c| - 1, IS)[(txn, c) := S]
  {
    var p := Acquires(c, |c| - 1, IS) + [AcquireAt(c, S)];
    FreePlan(s, txn, c, S);
    assert Plan(s.locks, txn, c, S) == p + [AcquireAt(c, X)];
    SharedRunThrows(s, txn, c);
  }

  /** The calls of an S request on a free chain: all succeed but the last. */
  lemma SharedRunThrows(s: TreeState, txn: Txn, c: Name)
    requires WellFormed(s) && FreeChain(s, txn, c)
    ensures var p := Acquires(c, |c| - 1, IS) + [AcquireAt(c, S), AcquireAt(c, X)];
      && Targets(s, p)
      && RunPlan(s, txn, p).outcome == Err(if |c| > 1 then InvalidLock else DuplicateLockRequest)
      && RunPlan(s, txn, p).state.locks == Granted(s.locks, txn, c, |c| - 1, IS)[(txn, c) := S]
  {
    var p := Acquires(c, |c| - 1, IS) + [AcquireAt(c, S)];
    FreeChainGrant(s, txn, c, IS, S);
    var mid := RunPlan(s, txn, p).state;
    assert RunPlan(s, txn, p) == Step(Ok, mid);
    XAfterSharedGrant(s, txn, c, mid);
    Advance(s, txn, p, AcquireAt(c, X), mid, Step(Err(if |c| > 1 then InvalidLock else DuplicateLockRequest), mid));
    assert p + [AcquireAt(c, X)] == Acquires(c, |c| - 1, IS) + [AcquireAt(c, S), AcquireAt(c, X)];
  }

  /** Once IS is held on the strict ancestors and S on the context, acquiring X throws. */
  lemma XAfterSharedGrant(s: TreeState, txn: Txn, c: Name, mid: TreeState)
    requires FreeChain(s, txn, c)
    requires WellFormed(mid) && SameFlags(s.contexts, mid.contexts)
    requires mid.locks == Granted(s.locks, txn, c, |c| - 1, IS)[(txn, c) := S]
    ensures c in mid.contexts
    ensures Apply(mid, txn, AcquireAt(c, X)) == Step(Err(if |c| > 1 then InvalidLock else DuplicateLockRequest), mid)
  {
    if |c| > 1 {
      GrantedChainAt(s.locks, txn, c, IS, S, |c| - 1);
    }
    assert c[..|c|] == c;
    AcquireXUnderIS(mid, txn, c);
  }

  /** ensureSufficientLockHeld with the final block moved into the branch for
      X and NL requests. */
  function EnsureCorrected(s: TreeState, txn: Txn, c: Name, request: LockType): Step
    requires WellFormed(s) && c in s.contexts
  {
    PlanTargets(s, txn, c, request);
    RunPlan(s, txn, CorrectedPlan(s.locks, txn, c, request))
  }

  /** The corrected plan grants exactly what the request needs on a context
      where the transaction holds nothing: the intent kind on every strict
      ancestor and the request kind on the context, every lock is permitted
      by its parent's, and the context's lock meets the request. */
  lemma CorrectedRequestOnFreeChain(s: TreeState, txn: Txn, c: Name, request: LockType)
    requires WellFormed(s) && FreeChain(s, txn, c) && (request == S || request == X)
    ensures EnsureCorrected(s, txn, c, request).outcome == Ok
    ensures EnsureCorrected(s, txn, c, request).state.locks
            == Granted(s.locks, txn, c, |c| - 1, Intent(request))[(txn, c) := request]
    ensures Substitutable(LockTypeOf(EnsureCorrected(s, txn, c, request).state.locks, txn, c), request)
    ensures ParentsPermit(EnsureCorrected(s, txn, c, request).state.locks, txn, c)
  {
    FreeCorrectedPlan(s, txn, c, request);
    FreeChainGrant(s, txn, c, Intent(request), request);
    GrantedChainPermits(s.locks, txn, c, Intent(request), request);
  }

  /** For X and NL requests the corrected plan is the plan as written. */
  lemma PlansAgreeBesideS(locks: LockTable, txn: Txn, c: Name, request: LockType)
    requires request != S
    ensures CorrectedPlan(locks, txn, c, request) == Plan(locks, txn, c, request)
  {
  }

  /** As written, an X request on a context where the transaction holds
      nothing succeeds with IX on every strict ancestor and X on the context. */
  lemma ExclusiveRequestOnFreeChain(s: TreeState, txn: Txn, c: Name)
    requires WellFormed(s) && FreeChain(s, txn, c)
    ensures Ensure(s, Some(txn), Some(c), X).outcome == Ok
    ensures Ensure(s, Some(txn), Some(c), X).state.locks == Granted(s.locks, txn, c, |c| - 1, IX)[(txn, c) := X]
  {
    assert c[..|c|] == c;
    CorrectedRequestOnFreeChain(s, txn, c, X);
    PlansAgreeBesideS(s.locks, txn, c, X);
  }
}

/** Whether ensureSufficientLockHeld leaves the transaction able to do what
    it asked for. The method computes the effective lock type
    (LockUtil.java:46) but never reads it, and never checks whether the lock
    already held meets the request, which its own documentation names as the
    first case (LockUtil.java:23-26). This module shows a call that throws
    although the lock held suffices, and proves that a call checking first
    keeps such a lock and otherwise ends with one. */
module LockSufficiency {
  import opened Wrappers
  import opened LockTypes
  import opened Locking
  import opened LockContexts
  import opened LockUtil
  import opened LockPlans

  /** The lock `txn` holds on `c`, explicitly or through an ancestor, meets `request`. */
  predicate Sufficient(locks: LockTable, txn: Txn, c: Name, request: LockType) {
    Substitutable(LockTypeOf(locks, txn, c), request) || Substitutable(EffectiveLockType(locks, txn, c), request)
  }

  /** Every strict ancestor of `c` holds IX. */
  ghost predicate IntentChain(locks: LockTable, txn: Txn, c: Name) {
    forall k :: 0 < k < |c| ==> LockTypeOf(locks, txn, c[..k]) == IX
  }

  /** For an X or NL request, ancestors that hold IX receive no call. */
  lemma {:induction false} IntentAncestorsNoCalls(locks: LockTable, txn: Txn, ancestors: seq<Name>, request: LockType)
    requires request != S
    requires forall i :: 0 <= i < |ancestors| ==> LockTypeOf(locks, txn, ancestors[i]) == IX
    ensures AncestorActions(locks, txn, ancestors, request) == []
    decreases |ancestors|
  {
    if ancestors != [] {
      assert forall i :: 0 <= i < |ancestors[1..]| ==> ancestors[1..][i] == ancestors[i + 1];
      IntentAncestorsNoCalls(locks, txn, ancestors[1..], request);
    }
  }

  /** Under an IX parent nothing is held implicitly: the effective kind is NL. */
  lemma EffectiveUnderIntent(locks: LockTable, txn: Txn, c: Name)
    requires |c| > 1 && LockTypeOf(locks, txn, c[..|c| - 1]) == IX
    ensures EffectiveLockType(locks, txn, c) == NL
  {
    assert NearestAt(locks, txn, c, |c| - 1);
    NearestAtUnique(locks, txn, c, |c| - 1);
  }

  /** FINDING, as written: a transaction holding IX on every strict ancestor
      and X on the context asks for X. The lock already suffices, yet no
      ancestor gets a call and the final block escalates; the effective kind
      under an IX parent is NL, so the call throws NoLockHeld. */
  lemma SufficientXThrows(s: TreeState, txn: Txn, c: Name)
    requires WellFormed(s) && c in s.contexts && !s.contexts[c].readonly
    requires |c| > 1 && IntentChain(s.locks, txn, c) && LockTypeOf(s.locks, txn, c) == X
    ensures Sufficient(s.locks, txn, c, X)
    ensures Ensure(s, Some(txn), Some(c), X) == Step(Err(NoLockHeld), s)
  {
    assert forall i :: 0 <= i < |Ancestors(c)| ==> Ancestors(c)[i] == c[..i + 1];
    IntentAncestorsNoCalls(s.locks, txn, Ancestors(c), X);
    assert Plan(s.locks, txn, c, X) == [EscalateAt(c)];
    PlanTargets(s, txn, c, X);
    RunPlanSnoc(s, txn, [], EscalateAt(c));
    assert [] + [EscalateAt(c)] == [EscalateAt(c)];
    EffectiveUnderIntent(s.locks, txn, c);
  }

  /** As written: a transaction holding S on a root asks for X. The final
      block promotes to X, and promote only checks (LockContext.java:179-229),
      so the call returns normally with the lock still S, which does not meet
      the request. */
  lemma RootSharedStaysShared(s: TreeState, txn: Txn, c: Name)
    requires WellFormed(s) && c in s.contexts && !s.contexts[c].readonly
    requires |c| == 1 && LockTypeOf(s.locks, txn, c) == S
    ensures Ensure(s, Some(txn), Some(c), X) == Step(Ok, s)
    ensures !Sufficient(s.locks, txn, c, X)
  {
    assert Ancestors(c) == [];
    assert AncestorActions(s.locks, txn, Ancestors(c), X) == [];
    assert ContextActions(c, S, X) == [PromoteAt(c, X)];
    assert Plan(s.locks, txn, c, X) == [PromoteAt(c, X)];
    assert NearestLockedAncestor(s.locks, txn, c).None?;
    assert EffectiveLockType(s.locks, txn, c) == NL;
    PlanTargets(s, txn, c, X);
    RunPlanSnoc(s, txn, [], PromoteAt(c, X));
    assert [] + [PromoteAt(c, X)] == [PromoteAt(c, X)];
  }

  /** ensureSufficientLockHeld as documented: return at once when the lock
      held (explicitly or through an ancestor) already meets the request,
      and otherwise make the calls of the corrected plan. */
  function EnsureSufficient(s: TreeState, txn: Option<Txn>, ctx: Option<Name>, request: LockType): (r: Step)
    requires WellFormed(s) && (ctx.Some? ==> ctx.value in s.contexts)
    ensures WellFormed(r.state) && SameFlags(s.contexts, r.state.contexts)
    ensures txn.Some? && ctx.Some? && Sufficient(s.locks, txn.value, ctx.value, request) ==> r == Step(Ok, s)
  {
    if txn.None? || ctx.None? then Step(Ok, s)
    else if Sufficient(s.locks, txn.value, ctx.value, request) then Step(Ok, s)
    else EnsureCorrected(s, txn.value, ctx.value, request)
  }

  /** Corrected: for an S or X request, on a context whose lock already
      suffices or on a chain where the transaction holds nothing, the call
      returns normally and leaves a lock that meets the request. Where the
      lock sufficed, nothing changes. */
  lemma EnsureSufficientMeetsRequest(s: TreeState, txn: Txn, c: Name, request: LockType)
    requires WellFormed(s) && c in s.contexts && (request == S || request == X)
    requires Sufficient(s.locks, txn, c, request) || FreeChain(s, txn, c)
    ensures EnsureSufficient(s, Some(txn), Some(c), request).outcome == Ok
    ensures Sufficient(EnsureSufficient(s, Some(txn), Some(c), request).state.locks, txn, c, request)
    ensures Sufficient(s.locks, txn, c, request) ==> EnsureSufficient(s, Some(txn), Some(c), request).state == s
  {
    if !Sufficient(s.locks, txn, c, request) {
      CorrectedRequestOnFreeChain(s, txn, c, request);
    }
  }

  /** On the state of SufficientXThrows the corrected call succeeds and changes nothing. */
  lemma SufficientXKept(s: TreeState, txn: Txn, c: Name)
    requires WellFormed(s) && c in s.contexts && !s.contexts[c].readonly
    requires |c| > 1 && IntentChain(s.locks, txn, c) && LockTypeOf(s.locks, txn, c) == X
    ensures EnsureSufficient(s, Some(txn), Some(c), X) == Step(Ok, s)
  {
    assert Substitutable(LockTypeOf(s.locks, txn, c), X);
  }
}

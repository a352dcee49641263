/** LockUtil.ensureSufficientLockHeld: the sequence of calls it makes on a
    context and its ancestors, as a plan, and a method that makes them. */
module LockUtil {
  import opened Wrappers
  import opened LockTypes
  import opened Locking
  import opened LockContexts

  /** One call ensureSufficientLockHeld makes on a context. */
  datatype Action =
    | AcquireAt(ctx: Name, kind: LockType)
    | PromoteAt(ctx: Name, kind: LockType)
    | EscalateAt(ctx: Name)

  /** The strict ancestors of `n`, root first. */
  function Ancestors(n: Name): seq<Name> {
    seq(|n| - 1, i requires 0 <= i < |n| - 1 => n[..i + 1])
  }

  /** allAncestors: walks up from the parent of `n`, then reverses the list. */
  method AllAncestors(n: Name) returns (ancestors: seq<Name>)
    ensures |ancestors| == |n| - 1
    ensures forall i :: 0 <= i < |ancestors| ==> ancestors[i] == n[..i + 1]
    ensures forall a: Name :: a in ancestors <==> IsStrictPrefix(a, n)
  {
    var list: seq<Name> := [];
    var pt := Parent(n);
    while pt.Some?
      invariant pt.Some? ==> |pt.value| == |n| - 1 - |list| && pt.value == n[..|pt.value|]
      invariant pt.None? ==> |list| == |n| - 1
      invariant forall j :: 0 <= j < |list| ==> list[j] == n[..|n| - 1 - j]
      decreases if pt.Some? then |pt.value| else 0
    {
      list := list + [pt.value];
      pt := Parent(pt.value);
    }
    ancestors := [];
    var i := |list|;
    while i > 0
      invariant 0 <= i <= |list|
      invariant |ancestors| == |list| - i
      invariant forall j :: 0 <= j < |ancestors| ==> ancestors[j] == list[|list| - 1 - j]
    {
      i := i - 1;
      ancestors := ancestors + [list[i]];
    }
    PrefixesAreAncestors(ancestors, n);
  }

  /** The list of the strict prefixes of `n` by length holds exactly the strict prefixes. */
  lemma PrefixesAreAncestors(ancestors: seq<Name>, n: Name)
    requires |ancestors| == |n| - 1 && forall i :: 0 <= i < |ancestors| ==> ancestors[i] == n[..i + 1]
    ensures forall a: Name :: a in ancestors <==> IsStrictPrefix(a, n)
  {
    assert forall a: Name :: IsStrictPrefix(a, n) ==> ancestors[|a| - 1] == a;
  }

  /** The call made on one ancestor whose explicit kind is `kind`: for an S
      request only NL ancestors get `acquire(IS)`; for an X or NL request
      NL gets `acquire(IX)`, IS `promote(IX)`, S `promote(SIX)`, and the rest nothing. */
  function AncestorAction(a: Name, kind: LockType, request: LockType): (r: seq<Action>)
    ensures |r| <= 1 && forall j :: 0 <= j < |r| ==> r[j].ctx == a
  {
    if request == S then
      (if kind == NL then [AcquireAt(a, IS)] else [])
    else if kind == NL then [AcquireAt(a, IX)]
    else if kind == IS then [PromoteAt(a, IX)]
    else if kind == S then [PromoteAt(a, SIX)]
    else []
  }

  /** The calls on `ancestors`, in their order, as decided from `locks`. */
  function AncestorActions(locks: LockTable, txn: Txn, ancestors: seq<Name>, request: LockType): (r: seq<Action>)
    ensures forall j :: 0 <= j < |r| ==> r[j].ctx in ancestors
  {
    if ancestors == [] then []
    else AncestorAction(ancestors[0], LockTypeOf(locks, txn, ancestors[0]), request)
         + AncestorActions(locks, txn, ancestors[1..], request)
  }

  /** The calls on the context itself for an S request, before the final block. */
  function TargetActionsForS(c: Name, explicit: LockType): (r: seq<Action>)
    ensures |r| == 1 && r[0].ctx == c
  {
    if explicit == NL then [AcquireAt(c, S)]
    else if explicit == IS then [EscalateAt(c)]
    else [PromoteAt(c, SIX)]
  }

  /** The block at the end of ensureSufficientLockHeld, run for every request kind. */
  function FinalBlock(c: Name, explicit: LockType): (r: seq<Action>)
    ensures 1 <= |r| <= 2 && forall j :: 0 <= j < |r| ==> r[j].ctx == c
  {
    if explicit == NL then [AcquireAt(c, X)]
    else if explicit == IS then [EscalateAt(c), PromoteAt(c, X)]
    else if explicit == S then [PromoteAt(c, X)]
    else [EscalateAt(c)]
  }

  /** The calls on the context itself: for an S request the S target calls
      and then the final block, for X and NL the final block alone. */
  function ContextActions(c: Name, explicit: LockType, request: LockType): (r: seq<Action>)
    ensures forall j :: 0 <= j < |r| ==> r[j].ctx == c
  {
    if request == S then TargetActionsForS(c, explicit) + FinalBlock(c, explicit)
    else FinalBlock(c, explicit)
  }

  /** The calls ensureSufficientLockHeld makes, in order, as long as none throws. */
  function Plan(locks: LockTable, txn: Txn, c: Name, request: LockType): (r: seq<Action>)
    ensures forall j :: 0 <= j < |r| ==> r[j].ctx == c || IsStrictPrefix(r[j].ctx, c)
  {
    AncestorActions(locks, txn, Ancestors(c), request) + ContextActions(c, LockTypeOf(locks, txn, c), request)
  }

  /** The calls on the context itself with the final block only in the branch
      for X and NL requests. */
  function CorrectedContextActions(c: Name, explicit: LockType, request: LockType): (r: seq<Action>)
    ensures forall j :: 0 <= j < |r| ==> r[j].ctx == c
  {
    if request == S then TargetActionsForS(c, explicit) else FinalBlock(c, explicit)
  }

  /** The plan with the final block only in the branch for X and NL requests. */
  function CorrectedPlan(locks: LockTable, txn: Txn, c: Name, request: LockType): (r: seq<Action>)
    ensures forall j :: 0 <= j < |r| ==> r[j].ctx == c || IsStrictPrefix(r[j].ctx, c)
  {
    AncestorActions(locks, txn, Ancestors(c), request) + CorrectedContextActions(c, LockTypeOf(locks, txn, c), request)
  }

  // ------------------------------------------------------ running a plan

  ghost predicate Targets(s: TreeState, plan: seq<Action>) {
    forall j :: 0 <= j < |plan| ==> plan[j].ctx in s.contexts
  }

  /** One call on the tree. */
  function Apply(s: TreeState, txn: Txn, a: Action): (r: Step)
    requires WellFormed(s) && a.ctx in s.contexts
    ensures WellFormed(r.state) && SameFlags(s.contexts, r.state.contexts)
  {
    match a
    case AcquireAt(c, k) => AcquireStep(s, c, txn, k)
    case PromoteAt(c, k) => PromoteStep(s, c, txn, k)
    case EscalateAt(c) => EscalateStep(s, c, txn)
  }

  /** The calls of `plan` one after the other; the first that throws ends the run. */
  function RunPlan(s: TreeState, txn: Txn, plan: seq<Action>): (r: Step)
    requires WellFormed(s) && Targets(s, plan)
    decreases |plan|
    ensures WellFormed(r.state) && SameFlags(s.contexts, r.state.contexts)
  {
    if plan == [] then Step(Ok, s)
    else
      var r0 := RunPlan(s, txn, plan[..|plan| - 1]);
      if r0.outcome.Err? then r0 else Apply(r0.state, txn, plan[|plan| - 1])
  }

  /** ensureSufficientLockHeld for the transaction `txn` on the context `ctx`;
      None stands for null. */
  function Ensure(s: TreeState, txn: Option<Txn>, ctx: Option<Name>, request: LockType): Step
    requires WellFormed(s) && (ctx.Some? ==> ctx.value in s.contexts)
  {
    if txn.None? || ctx.None? then Step(Ok, s)
    else
      PlanTargets(s, txn.value, ctx.value, request);
      RunPlan(s, txn.value, Plan(s.locks, txn.value, ctx.value, request))
  }

  lemma PlanTargets(s: TreeState, txn: Txn, c: Name, request: LockType)
    requires WellFormed(s) && c in s.contexts
    ensures Targets(s, Plan(s.locks, txn, c, request))
    ensures Targets(s, CorrectedPlan(s.locks, txn, c, request))
  {
    assert forall a: Name :: IsStrictPrefix(a, c) ==> a == c[..|a|];
  }

  lemma RunPlanSnoc(s: TreeState, txn: Txn, p: seq<Action>, a: Action)
    requires WellFormed(s) && Targets(s, p + [a])
    ensures Targets(s, p)
    ensures RunPlan(s, txn, p + [a]) ==
            if RunPlan(s, txn, p).outcome.Err? then RunPlan(s, txn, p) else Apply(RunPlan(s, txn, p).state, txn, a)
  {
    assert (p + [a])[..|p|] == p;
    assert forall j :: 0 <= j < |p| ==> p[j] == (p + [a])[j];
  }

  lemma PrefixOfPlan(done: seq<Action>, aa: seq<Action>, rest: seq<Action>)
    requires done <= aa
    ensures done <= aa + rest && (aa + rest)[|done|..] == aa[|done|..] + rest
  {
    assert (aa + rest)[..|done|] == aa[..|done|];
  }

  lemma TargetsAppend(s: TreeState, p: seq<Action>, q: seq<Action>)
    requires Targets(s, p) && Targets(s, q)
    ensures Targets(s, p + q)
  {
    forall j | 0 <= j < |p + q|
      ensures (p + q)[j].ctx in s.contexts
    {
      if j >= |p| {
        assert (p + q)[j] == q[j - |p|];
      }
    }
  }

  /** One more call after a run of calls that all returned normally. */
  lemma Advance(s: TreeState, txn: Txn, p: seq<Action>, a: Action, before: TreeState, after: Step)
    requires WellFormed(s) && Targets(s, p) && a.ctx in s.contexts
    requires RunPlan(s, txn, p) == Step(Ok, before)
    requires after == Apply(before, txn, a)
    ensures Targets(s, p + [a]) && RunPlan(s, txn, p + [a]) == after
  {
    assert Targets(s, [a]);
    TargetsAppend(s, p, [a]);
    RunPlanSnoc(s, txn, p, a);
  }

  /** Once a call has thrown, the calls after it are never made. */
  lemma {:induction false} RunPlanStopsAtError(s: TreeState, txn: Txn, p: seq<Action>, q: seq<Action>)
    requires WellFormed(s) && Targets(s, p + q)
    requires Targets(s, p) && RunPlan(s, txn, p).outcome.Err?
    ensures RunPlan(s, txn, p + q) == RunPlan(s, txn, p)
    decreases |q|
  {
    if q != [] {
      var q' := q[..|q| - 1];
      var pq' := p + q';
      assert p + q == pq' + [q[|q| - 1]];
      assert forall j :: 0 <= j < |pq'| ==> pq'[j] == (p + q)[j];
      RunPlanStopsAtError(s, txn, p, q');
      RunPlanSnoc(s, txn, pq', q[|q| - 1]);
    } else {
      assert p + q == p;
    }
  }

  /** A call on another context does not change the lock held on `n`. */
  lemma ApplyFrame(s: TreeState, txn: Txn, a: Action, n: Name)
    requires WellFormed(s) && a.ctx in s.contexts && a.ctx != n
    ensures ((txn, n) in Apply(s, txn, a).state.locks) == ((txn, n) in s.locks)
    ensures LockTypeOf(Apply(s, txn, a).state.locks, txn, n) == LockTypeOf(s.locks, txn, n)
  {
  }

  /** Calls on other contexts do not change the lock held on `n`. */
  lemma {:induction false} RunPlanFrame(s: TreeState, txn: Txn, p: seq<Action>, n: Name)
    requires WellFormed(s) && Targets(s, p)
    requires forall j :: 0 <= j < |p| ==> p[j].ctx != n
    ensures ((txn, n) in RunPlan(s, txn, p).state.locks) == ((txn, n) in s.locks)
    ensures LockTypeOf(RunPlan(s, txn, p).state.locks, txn, n) == LockTypeOf(s.locks, txn, n)
    decreases |p|
  {
    if p != [] {
      var p' := p[..|p| - 1];
      assert forall j :: 0 <= j < |p'| ==> p'[j] == p[j];
      RunPlanFrame(s, txn, p', n);
      var r0 := RunPlan(s, txn, p');
      if r0.outcome.Ok? {
        ApplyFrame(r0.state, txn, p[|p| - 1], n);
      }
    }
  }

  lemma {:induction false} AncestorActionsAppend(locks: LockTable, txn: Txn, a: seq<Name>, b: seq<Name>, request: LockType)
    ensures AncestorActions(locks, txn, a + b, request)
            == AncestorActions(locks, txn, a, request) + AncestorActions(locks, txn, b, request)
    decreases |a|
  {
    if a == [] {
      assert a + b == b;
    } else {
      assert (a + b)[0] == a[0];
      assert (a + b)[1..] == a[1..] + b;
      AncestorActionsAppend(locks, txn, a[1..], b, request);
    }
  }

  // --------------------------------------------------------- the method

  /** The body of the loops over the ancestors: the call, if any, on the
      ancestor `a` whose explicit kind is `kind`. */
  method CallOnAncestor(tree: ContextTree, transaction: Txn, a: Name, kind: LockType, requestType: LockType)
    returns (r: Outcome)
    requires tree.Valid() && a in tree.contexts
    modifies tree, tree.lockman
    ensures tree.Valid()
    ensures var act := AncestorAction(a, kind, requestType);
      if act == [] then r == Ok && tree.State() == old(tree.State())
      else Step(r, tree.State()) == Apply(old(tree.State()), transaction, act[0])
  {
    r := Ok;
    if requestType == S {
      if kind == NL {
        r := tree.Acquire(a, transaction, IS);
      }
    } else if kind == NL {
      r := tree.Acquire(a, transaction, IX);
    } else if kind == IS {
      r := tree.Promote(a, transaction, IX);
    } else if kind == S {
      r := tree.Promote(a, transaction, SIX);
    }
  }

  /** One iteration of the loops over the ancestors: reads the explicit kind
      of `ancestors[i]` and makes the call it calls for. */
  method AncestorStep(tree: ContextTree, transaction: Txn, ancestors: seq<Name>, i: nat, requestType: LockType,
                      ghost s0: TreeState, ghost done: seq<Action>)
    returns (r: Outcome, ghost done': seq<Action>)
    requires i < |ancestors| && forall j :: 0 <= j < |ancestors| ==> ancestors[j] in s0.contexts && |ancestors[j]| == j + 1
    requires WellFormed(s0) && tree.Valid()
    requires done == AncestorActions(s0.locks, transaction, ancestors[..i], requestType)
    requires Targets(s0, done) && Step(Ok, tree.State()) == RunPlan(s0, transaction, done)
    modifies tree, tree.lockman
    ensures done' == AncestorActions(s0.locks, transaction, ancestors[..i + 1], requestType)
    ensures Targets(s0, done') && Step(r, tree.State()) == RunPlan(s0, transaction, done')
    ensures tree.Valid()
  {
    ghost var before := tree.State();
    var ancestorLockType := tree.ExplicitLockType(ancestors[i], transaction);
    r := CallOnAncestor(tree, transaction, ancestors[i], ancestorLockType, requestType);
    AncestorStepPlan(s0, transaction, ancestors, i, requestType, done, before, r, tree.State());
    done' := AncestorActions(s0.locks, transaction, ancestors[..i + 1], requestType);
  }

  /** The plan after one more ancestor: its call, if any, is the one made on
      the state the earlier calls left. */
  lemma AncestorStepPlan(s0: TreeState, txn: Txn, ancestors: seq<Name>, i: nat, request: LockType,
                         done: seq<Action>, before: TreeState, r: Outcome, after: TreeState)
    requires i < |ancestors| && forall j :: 0 <= j < |ancestors| ==> ancestors[j] in s0.contexts && |ancestors[j]| == j + 1
    requires WellFormed(s0) && done == AncestorActions(s0.locks, txn, ancestors[..i], request)
    requires Targets(s0, done) && Step(Ok, before) == RunPlan(s0, txn, done)
    requires var act := AncestorAction(ancestors[i], LockTypeOf(before.locks, txn, ancestors[i]), request);
      if act == [] then r == Ok && after == before else Step(r, after) == Apply(before, txn, act[0])
    ensures var done' := AncestorActions(s0.locks, txn, ancestors[..i + 1], request);
      Targets(s0, done') && Step(r, after) == RunPlan(s0, txn, done')
  {
    AncestorKindUnchanged(s0, txn, ancestors, i, request, done);
    AncestorActionsStep(s0.locks, txn, ancestors, i, request);
    var act := AncestorAction(ancestors[i], LockTypeOf(s0.locks, txn, ancestors[i]), request);
    if act != [] {
      Advance(s0, txn, done, act[0], before, Step(r, after));
      assert act == [act[0]];
    } else {
      assert done + act == done;
    }
  }

  /** The calls on the first `i` ancestors leave the lock on the next one as it was. */
  lemma AncestorKindUnchanged(s0: TreeState, txn: Txn, ancestors: seq<Name>, i: nat, request: LockType,
                              done: seq<Action>)
    requires i < |ancestors| && forall j :: 0 <= j < |ancestors| ==> |ancestors[j]| == j + 1
    requires WellFormed(s0) && Targets(s0, done)
    requires done == AncestorActions(s0.locks, txn, ancestors[..i], request)
    ensures LockTypeOf(RunPlan(s0, txn, done).state.locks, txn, ancestors[i]) == LockTypeOf(s0.locks, txn, ancestors[i])
  {
    ShorterAncestorsDiffer(ancestors, i, done);
    RunPlanFrame(s0, txn, done, ancestors[i]);
  }

  /** The actions on the first `i` ancestors are on contexts other than the next one. */
  lemma ShorterAncestorsDiffer(ancestors: seq<Name>, i: nat, done: seq<Action>)
    requires i < |ancestors| && forall j :: 0 <= j < |ancestors| ==> |ancestors[j]| == j + 1
    requires forall j :: 0 <= j < |done| ==> done[j].ctx in ancestors[..i]
    ensures forall j :: 0 <= j < |done| ==> done[j].ctx != ancestors[i]
  {
    forall j | 0 <= j < |done|
      ensures done[j].ctx != ancestors[i]
    {
      var k :| 0 <= k < i && ancestors[..i][k] == done[j].ctx;
    }
  }

  lemma AncestorActionsStep(locks: LockTable, txn: Txn, ancestors: seq<Name>, i: nat, request: LockType)
    requires i < |ancestors|
    ensures AncestorActions(locks, txn, ancestors[..i + 1], request)
            == AncestorActions(locks, txn, ancestors[..i], request)
               + AncestorAction(ancestors[i], LockTypeOf(locks, txn, ancestors[i]), request)
  {
    assert ancestors[..i + 1] == ancestors[..i] + [ancestors[i]];
    AncestorActionsAppend(locks, txn, ancestors[..i], [ancestors[i]], request);
    assert [ancestors[i]][1..] == [];
    var act := AncestorAction(ancestors[i], LockTypeOf(locks, txn, ancestors[i]), request);
    assert act + [] == act;
  }

  lemma AncestorActionsPrefix(locks: LockTable, txn: Txn, ancestors: seq<Name>, k: nat, request: LockType)
    requires k <= |ancestors|
    ensures AncestorActions(locks, txn, ancestors[..k], request) <= AncestorActions(locks, txn, ancestors, request)
  {
    assert ancestors == ancestors[..k] + ancestors[k..];
    AncestorActionsAppend(locks, txn, ancestors[..k], ancestors[k..], request);
  }

  /** The two loops over the ancestors (root first) of ensureSufficientLockHeld.
      `done` is the list of the calls made; all of them but the last returned normally. */
  method LockAncestors(tree: ContextTree, transaction: Txn, lockContext: Name, ancestors: seq<Name>,
                       requestType: LockType)
    returns (r: Outcome, ghost done: seq<Action>)
    requires tree.Valid() && lockContext in tree.contexts && ancestors == Ancestors(lockContext)
    modifies tree, tree.lockman
    ensures tree.Valid()
    ensures done <= AncestorActions(old(tree.lockman.locks), transaction, ancestors, requestType)
    ensures r.Ok? ==> done == AncestorActions(old(tree.lockman.locks), transaction, ancestors, requestType)
    ensures Targets(old(tree.State()), done) && Step(r, tree.State()) == RunPlan(old(tree.State()), transaction, done)
  {
    ghost var s0 := tree.State();
    assert forall j :: 0 <= j < |ancestors| ==> ancestors[j] in s0.contexts && |ancestors[j]| == j + 1;
    done := [];
    r := Ok;
    var i := 0;
    while i < |ancestors|
      invariant 0 <= i <= |ancestors|
      invariant tree.Valid()
      invariant done == AncestorActions(s0.locks, transaction, ancestors[..i], requestType)
      invariant r == Ok && Targets(s0, done) && Step(Ok, tree.State()) == RunPlan(s0, transaction, done)
    {
      r, done := AncestorStep(tree, transaction, ancestors, i, requestType, s0, done);
      if r.Err? {
        AncestorActionsPrefix(s0.locks, transaction, ancestors, i + 1, requestType);
        return;
      }
      i := i + 1;
    }
    assert ancestors[..i] == ancestors;
  }

  /** The call on the context itself for an S request (LockUtil.java:57-63). */
  method TargetCallsForS(tree: ContextTree, transaction: Txn, lockContext: Name, explicitLockType: LockType,
                         ghost s0: TreeState, ghost done: seq<Action>)
    returns (r: Outcome)
    requires tree.Valid() && WellFormed(s0) && lockContext in s0.contexts
    requires Targets(s0, done) && Step(Ok, tree.State()) == RunPlan(s0, transaction, done)
    modifies tree, tree.lockman
    ensures Targets(s0, done + TargetActionsForS(lockContext, explicitLockType))
    ensures Step(r, tree.State()) == RunPlan(s0, transaction, done + TargetActionsForS(lockContext, explicitLockType))
    ensures tree.Valid()
  {
    ghost var before := tree.State();
    ghost var a := TargetActionsForS(lockContext, explicitLockType)[0];
    if explicitLockType == NL {
      r := tree.Acquire(lockContext, transaction, S);
    } else if explicitLockType == IS {
      r := tree.Escalate(lockContext, transaction);
    } else {
      r := tree.Promote(lockContext, transaction, SIX);
    }
    Advance(s0, transaction, done, a, before, Step(r, tree.State()));
  }

  /** The final block (LockUtil.java:76-85), run for every request kind. */
  method FinalBlockCalls(tree: ContextTree, transaction: Txn, lockContext: Name, explicitLockType: LockType,
                         ghost s0: TreeState, ghost done: seq<Action>)
    returns (r: Outcome)
    requires tree.Valid() && WellFormed(s0) && lockContext in s0.contexts
    requires Targets(s0, done) && Step(Ok, tree.State()) == RunPlan(s0, transaction, done)
    modifies tree, tree.lockman
    ensures Targets(s0, done + FinalBlock(lockContext, explicitLockType))
    ensures Step(r, tree.State()) == RunPlan(s0, transaction, done + FinalBlock(lockContext, explicitLockType))
    ensures tree.Valid()
  {
    ghost var block := FinalBlock(lockContext, explicitLockType);
    ghost var before := tree.State();
    if explicitLockType == NL {
      r := tree.Acquire(lockContext, transaction, X);
    } else if explicitLockType == IS {
      r := tree.Escalate(lockContext, transaction);
      Advance(s0, transaction, done, block[0], before, Step(r, tree.State()));
      assert done + block == (done + [block[0]]) + [block[1]];
      if r.Err? {
        RunPlanStopsAtError(s0, transaction, done + [block[0]], [block[1]]);
        return;
      }
      before := tree.State();
      r := tree.Promote(lockContext, transaction, X);
      Advance(s0, transaction, done + [block[0]], block[1], before, Step(r, tree.State()));
      return;
    } else if explicitLockType == S {
      r := tree.Promote(lockContext, transaction, X);
    } else {
      r := tree.Escalate(lockContext, transaction);
    }
    Advance(s0, transaction, done, block[0], before, Step(r, tree.State()));
  }

  /** The calls on the context itself (LockUtil.java:57-63 and 76-85). */
  method ContextCalls(tree: ContextTree, transaction: Txn, lockContext: Name, explicitLockType: LockType,
                      requestType: LockType, ghost s0: TreeState, ghost done: seq<Action>)
    returns (r: Outcome)
    requires tree.Valid() && WellFormed(s0) && lockContext in s0.contexts
    requires Targets(s0, done) && Step(Ok, tree.State()) == RunPlan(s0, transaction, done)
    modifies tree, tree.lockman
    ensures Targets(s0, done + ContextActions(lockContext, explicitLockType, requestType))
    ensures Step(r, tree.State()) == RunPlan(s0, transaction, done + ContextActions(lockContext, explicitLockType, requestType))
    ensures tree.Valid()
  {
    ghost var target := TargetActionsForS(lockContext, explicitLockType);
    if requestType == S {
      r := TargetCallsForS(tree, transaction, lockContext, explicitLockType, s0, done);
      if r.Err? {
        SkipFinalBlock(s0, transaction, lockContext, explicitLockType, done);
        return;
      }
      r := FinalBlockCalls(tree, transaction, lockContext, explicitLockType, s0, done + target);
      SharedContextActions(lockContext, explicitLockType, done);
    } else {
      r := FinalBlockCalls(tree, transaction, lockContext, explicitLockType, s0, done);
    }
  }

  /** For an S request, the calls on the context are the target call and then the final block. */
  lemma SharedContextActions(c: Name, explicit: LockType, done: seq<Action>)
    ensures done + ContextActions(c, explicit, S) == (done + TargetActionsForS(c, explicit)) + FinalBlock(c, explicit)
  {
    assert ContextActions(c, explicit, S) == TargetActionsForS(c, explicit) + FinalBlock(c, explicit);
  }

  /** When the S target call throws, the final block is never run. */
  lemma SkipFinalBlock(s0: TreeState, txn: Txn, c: Name, explicit: LockType, done: seq<Action>)
    requires WellFormed(s0) && c in s0.contexts
    requires Targets(s0, done + TargetActionsForS(c, explicit))
    requires RunPlan(s0, txn, done + TargetActionsForS(c, explicit)).outcome.Err?
    ensures Targets(s0, done + ContextActions(c, explicit, S))
    ensures RunPlan(s0, txn, done + ContextActions(c, explicit, S)) == RunPlan(s0, txn, done + TargetActionsForS(c, explicit))
  {
    var target := TargetActionsForS(c, explicit);
    var block := FinalBlock(c, explicit);
    SharedContextActions(c, explicit, done);
    assert Targets(s0, block);
    TargetsAppend(s0, done + target, block);
    RunPlanStopsAtError(s0, txn, done + target, block);
  }

  /** ensureSufficientLockHeld(ctx, requestType) for the transaction `txn`.
      The parent and the effective lock type are computed and never used. */
  method EnsureSufficientLockHeld(tree: ContextTree, txn: Option<Txn>, ctx: Option<Name>, requestType: LockType)
    returns (r: Outcome)
    requires requestType == S || requestType == X || requestType == NL
    requires tree.Valid() && (ctx.Some? ==> ctx.value in tree.contexts)
    modifies tree, tree.lockman
    ensures Step(r, tree.State()) == Ensure(old(tree.State()), txn, ctx, requestType)
    ensures tree.Valid()
  {
    if txn.None? || ctx.None? {
      return Ok;
    }
    var transaction, lockContext := txn.value, ctx.value;
    ghost var s0 := tree.State();
    PlanTargets(s0, transaction, lockContext, requestType);
    var parentContext := Parent(lockContext);
    var effectiveLockType := EffectiveLockType(tree.lockman.locks, transaction, lockContext);
    var explicitLockType := tree.ExplicitLockType(lockContext, transaction);
    assert explicitLockType == LockTypeOf(s0.locks, transaction, lockContext);
    ghost var rest := ContextActions(lockContext, explicitLockType, requestType);

    var ancestors := AllAncestors(lockContext);
    assert ancestors == Ancestors(lockContext);
    ghost var done;
    r, done := LockAncestors(tree, transaction, lockContext, ancestors, requestType);
    ghost var aa := AncestorActions(s0.locks, transaction, ancestors, requestType);
    if r.Err? {
      PrefixOfPlan(done, aa, rest);
      RunPlanStopsAtError(s0, transaction, done, aa[|done|..] + rest);
      assert done + (aa[|done|..] + rest) == aa + rest;
      return;
    }
    assert done == aa;
    r := ContextCalls(tree, transaction, lockContext, explicitLockType, requestType, s0, done);
    assert Step(r, tree.State()) == RunPlan(s0, transaction, aa + rest);
    assert aa + rest == Plan(s0.locks, transaction, lockContext, requestType);
  }
}

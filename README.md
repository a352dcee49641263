# Locking and query operators of a teaching database, in Dafny

This project models five pieces of a small relational database written in Java.

- **Lock types.** The six lock kinds of multigranularity locking (S, X, IS, IX, SIX, NL). It covers their compatibility matrix, the lock a parent must hold, which parent kinds permit which child kinds, and which kinds can stand in for which.
- **The lock-context tree.** Each resource (database, table, page) has a `LockContext`. It records whether the context is readonly, whether its children will be, and a counter per transaction. The counter is meant to hold how many locks that transaction holds on the context's direct children. `acquire` raises only the parent's counter, but `release` lowers the counters of every ancestor up to the first zero one, so the counters drift (see Findings). The operations are `acquire`, `release`, `promote` and `escalate`. `acquire` and `release` check the hierarchy rules and then forward to a lock manager. `promote` and `escalate` only check: as written, neither ever calls the lock manager, so neither changes a lock or a counter.
- **`ensureSufficientLockHeld`.** This utility acquires or upgrades the intent locks on every ancestor of a context, and then makes calls on the context itself. As written, its final block runs for every request kind and always aims at X. An S request on a context where nothing is held acquires S and then asks for X, and an NL request asks for IX on every ancestor and X on the context (`LockPlans.FreePlan`; see Findings).
- **External merge sort.** `SortOperator` cuts the source into sorted runs of one buffer-load each. It then merges groups of `numBuffers - 1` runs, pass after pass, through a priority queue.
- **Block nested loop join.** `BNLJOperator` reads the left source a block of `numBuffers - 2` pages at a time. It pairs each block with every page of the right source, and outputs each left record concatenated with each right record whose join-column value equals its own.

Files:

- `lock_type.dfy`: the lock-kind algebra.
- `lock_manager.dfy`: resource names, and a lock manager reduced to its lock table. `LockManager.java` is not part of this model. Its behaviour is stated as the contracts of the calls `LockContext` makes on it.
- `lock_context.dfy`: the tree state, each operation as a function on that state, and the class `ContextTree` whose methods perform the operations in place.
- `lock_util.dfy`: the calls `ensureSufficientLockHeld` makes, both as a plan (a sequence of calls) and as the method making them one by one.
- `child_locks.dfy`: what the per-transaction counters are meant to hold, a trace where `release` loses track of a held child lock, and a corrected release that keeps the counters exact.
- `lock_plan.dfy`: properties of the plan: call order, the calls each context receives, and what a request does on a chain where the transaction holds nothing.
- `lock_sufficient.dfy`: whether a call leaves a lock that meets the request, as written and with the documented early return.
- `records.dfy`: records, the sort-column comparison, and cutting a sequence into blocks.
- `sort_operator.dfy`: the sort operator.
- `bnlj_operator.dfy`: the join iterator.
- `wrappers.dfy`: an `Option` type.

Exceptions become an `Outcome` value (`Ok` or `Err(kind)`). A method that throws becomes one that returns `None`, or returns an `Err`. A single `LockContext` operation that throws leaves its state unchanged. An `ensureSufficientLockHeld` call (`LockUtil.Ensure`, `LockUtil.EnsureSufficientLockHeld`) that throws keeps the effects of the calls it made before the one that threw.

## Model

| member | source | states |
|---|---|---|
| LockTypes.Compatible | src/main/java/edu/berkeley/cs186/database/concurrency/LockType.java:21-54 | Compatible exactly when either side is NL, either side is IS and the other is not X, both are IX, or both are S |
| LockTypes.CompatibleSymmetric | src/main/java/edu/berkeley/cs186/database/concurrency/LockType.java:21-54 | the matrix is symmetric |
| LockTypes.CompatibleExtremes | src/main/java/edu/berkeley/cs186/database/concurrency/LockType.java:21-54 | NL is compatible with every kind; X is compatible only with NL |
| LockTypes.CompatibleRows | src/main/java/edu/berkeley/cs186/database/concurrency/LockType.java:21-54 | the compatible kinds of IS, IX, S and SIX, each listed both ways |
| LockTypes.ParentLock | src/main/java/edu/berkeley/cs186/database/concurrency/LockType.java:60-73 | the parent lock is NL exactly for NL, IS exactly for S and IS, and IX exactly for X, IX and SIX; it is always NL or an intent kind other than SIX (isIntent, lines 122-124) |
| LockTypes.CanBeParentLock | src/main/java/edu/berkeley/cs186/database/concurrency/LockType.java:79-88 | a parent kind permits a child kind exactly when the child is NL, the parent is IX, or the parent is IS and the child is IS or S |
| LockTypes.ParentLockPermits | src/main/java/edu/berkeley/cs186/database/concurrency/LockType.java:60-88 | the parent lock of every kind permits that kind, and every parent permits NL |
| LockTypes.CanBeParentLockRows | src/main/java/edu/berkeley/cs186/database/concurrency/LockType.java:79-88 | what each of the six parent kinds permits, both ways |
| LockTypes.CanBeParentLockFromParentLock | src/main/java/edu/berkeley/cs186/database/concurrency/LockType.java:79-88 | for a child other than NL, a parent kind permits it exactly when the parent kind is substitutable for the child's parent lock |
| LockTypes.Substitutable | src/main/java/edu/berkeley/cs186/database/concurrency/LockType.java:96-117 | a kind meets a requirement exactly when it equals it, or IX stands in for IS, or SIX or X stands in for S |
| LockTypes.SubstitutableReflexive | src/main/java/edu/berkeley/cs186/database/concurrency/LockType.java:96-117 | every kind meets its own requirement; only NL meets NL |
| LockTypes.SubstitutableColumns | src/main/java/edu/berkeley/cs186/database/concurrency/LockType.java:96-117 | the kinds that meet each of S, IS, IX, SIX and X |
| Locking.LocksOf | src/main/java/edu/berkeley/cs186/database/concurrency/LockContext.java:371 | the names in the result are exactly those on which the transaction holds a lock |
| Locking.WithoutLocks | src/main/java/edu/berkeley/cs186/database/concurrency/LockContext.java:291-296 | exactly the transaction's locks on the given names leave the table; every other entry is kept unchanged |
| Locking.LockManager.Acquire | src/main/java/edu/berkeley/cs186/database/concurrency/LockContext.java:116 | DuplicateLockRequest if the transaction already holds a lock there; otherwise the lock is added and nothing else changes |
| Locking.LockManager.Release | src/main/java/edu/berkeley/cs186/database/concurrency/LockContext.java:155 | NoLockHeld if the transaction holds no lock there; otherwise exactly that entry is removed |
| Locking.LockManager.AcquireAndRelease | src/main/java/edu/berkeley/cs186/database/concurrency/LockContext.java:291-296 | the errors of acquire-and-release; on success, the released names are gone and the new lock is in place |
| LockContexts.SetCount | src/main/java/edu/berkeley/cs186/database/concurrency/LockContext.java:117-121 | exactly one counter of one context changes; the flags and the set of contexts are kept |
| LockContexts.HasSIXAncestor | src/main/java/edu/berkeley/cs186/database/concurrency/LockContext.java:358-368 | true exactly when some strict ancestor holds an explicit SIX lock of the transaction |
| LockContexts.IsAncestor | src/main/java/edu/berkeley/cs186/database/concurrency/LockContext.java:403-418 | walking up the parents reaches the ancestor exactly when its name is a strict prefix of the child's |
| LockContexts.NearestLockedAncestor | src/main/java/edu/berkeley/cs186/database/concurrency/LockContext.java:332-350 | the nearest strict ancestor holding a lock other than NL; every context strictly between holds NL; None when all ancestors hold NL |
| LockContexts.EffectiveLockType | src/main/java/edu/berkeley/cs186/database/concurrency/LockContext.java:332-350 | the result is NL, S or X: S when the nearest locked ancestor holds S or SIX, X when it holds X, and NL otherwise |
| LockContexts.NearestAtUnique | src/main/java/edu/berkeley/cs186/database/concurrency/LockContext.java:332-350 | only one ancestor can be the nearest locked one |
| LockContexts.EffectiveLockTypeIgnoresOwnLock | src/main/java/edu/berkeley/cs186/database/concurrency/LockContext.java:332-350 | granting, changing or removing the context's own lock never changes its effective kind |
| LockContexts.NearestDependsOnAncestors | src/main/java/edu/berkeley/cs186/database/concurrency/LockContext.java:332-350 | the nearest locked ancestor depends only on the locks held on the strict ancestors |
| LockContexts.AllDescendants | src/main/java/edu/berkeley/cs186/database/concurrency/LockContext.java:370-380 | the result holds exactly the names strictly below the context on which the transaction holds a lock |
| LockContexts.SisDescendants | src/main/java/edu/berkeley/cs186/database/concurrency/LockContext.java:388-401 | the result holds exactly the descendants on which the transaction holds S or IS |
| LockContexts.SisDescendantsAreDescendants | src/main/java/edu/berkeley/cs186/database/concurrency/LockContext.java:370-401 | the S/IS descendants are a subset of all descendants, and the context is never its own descendant |
| LockContexts.WithChild | src/main/java/edu/berkeley/cs186/database/concurrency/LockContext.java:443-449 | the child exists afterwards; existing contexts are kept; a new child is readonly exactly when the parent disables child locks or is itself readonly, and has no counters; the tree's invariants are preserved |
| LockContexts.ChildContextIdempotent | src/main/java/edu/berkeley/cs186/database/concurrency/LockContext.java:443-449 | asking twice for the same child is the same as asking once |
| LockContexts.WithRoot | src/main/java/edu/berkeley/cs186/database/concurrency/LockContext.java:71 | the root exists afterwards, existing contexts are kept, and the invariants are preserved |
| LockContexts.Materialize | src/main/java/edu/berkeley/cs186/database/concurrency/LockContext.java:67-77 | the context of the name and of every prefix exist afterwards; existing contexts are kept; only prefixes of the name are added |
| LockContexts.MaterializeExisting | src/main/java/edu/berkeley/cs186/database/concurrency/LockContext.java:67-77 | looking up an existing context creates nothing |
| LockContexts.WithChildLocksDisabled | src/main/java/edu/berkeley/cs186/database/concurrency/LockContext.java:428-430 | only this context's flag changes, and it becomes set |
| LockContexts.DisableChildLocksAffectsLaterChildren | src/main/java/edu/berkeley/cs186/database/concurrency/LockContext.java:428-449 | disabling changes no existing context's readonly flag, but a child created afterwards is readonly |
| LockContexts.DecreaseChain | src/main/java/edu/berkeley/cs186/database/concurrency/LockContext.java:304-315 | walking up from the context, the transaction's counter drops by exactly one at each context on the chain, until the first zero counter; nothing else changes |
| LockContexts.DecreaseChainKeepsCounters | src/main/java/edu/berkeley/cs186/database/concurrency/LockContext.java:304-315 | no counter ever becomes negative |
| LockContexts.AcquireStep | src/main/java/edu/berkeley/cs186/database/concurrency/LockContext.java:97-131 | the tree stays well formed and keeps its flags; a call that throws changes nothing |
| LockContexts.AcquireConditions | src/main/java/edu/berkeley/cs186/database/concurrency/LockContext.java:97-131 | UnsupportedOperation when readonly; InvalidLock for IS or S under a SIX ancestor, or a kind the parent's lock does not permit; success exactly when no check fails and no lock is held yet; on success, one new lock and exactly one counter (the parent's) up by one |
| LockContexts.ReleaseStep | src/main/java/edu/berkeley/cs186/database/concurrency/LockContext.java:144-158 | the tree stays well formed and keeps its flags; a call that throws changes nothing |
| LockContexts.ReleaseConditions | src/main/java/edu/berkeley/cs186/database/concurrency/LockContext.java:144-158 | UnsupportedOperation when readonly; NoLockHeld without a lock; InvalidLock when the context's own counter for the transaction is non-zero; success exactly otherwise; on success, exactly that lock goes, and the counters drop along the parent chain up to the first zero one |
| LockContexts.PromoteStep | src/main/java/edu/berkeley/cs186/database/concurrency/LockContext.java:179-229 | UnsupportedOperation when readonly; InvalidLock exactly when a non-root context's own kind does not permit the new kind; the state never changes |
| LockContexts.EscalateStep | src/main/java/edu/berkeley/cs186/database/concurrency/LockContext.java:270-302 | UnsupportedOperation when readonly; NoLockHeld exactly when the effective kind is NL; otherwise success; the state never changes |
| LockContexts.ContextTree.constructor | src/main/java/edu/berkeley/cs186/database/concurrency/LockContext.java:49-62 | no contexts, over an empty lock manager |
| LockContexts.ContextTree.RootContext | src/main/java/edu/berkeley/cs186/database/concurrency/LockContext.java:71 | the contexts become those of WithRoot; the invariant is kept |
| LockContexts.ContextTree.ChildContext | src/main/java/edu/berkeley/cs186/database/concurrency/LockContext.java:443-449 | the contexts become those of WithChild; the invariant is kept |
| LockContexts.ContextTree.FromResourceName | src/main/java/edu/berkeley/cs186/database/concurrency/LockContext.java:67-77 | the loop creates the contexts of Materialize; the invariant is kept |
| LockContexts.ContextTree.DisableChildLocks | src/main/java/edu/berkeley/cs186/database/concurrency/LockContext.java:428-430 | the contexts become those of WithChildLocksDisabled |
| LockContexts.ContextTree.Acquire | src/main/java/edu/berkeley/cs186/database/concurrency/LockContext.java:97-131 | the outcome and the new tree and lock table are those of AcquireStep |
| LockContexts.ContextTree.Release | src/main/java/edu/berkeley/cs186/database/concurrency/LockContext.java:144-158 | the outcome and the new tree and lock table are those of ReleaseStep |
| LockContexts.ContextTree.DecreaseNumChildLocks | src/main/java/edu/berkeley/cs186/database/concurrency/LockContext.java:304-315 | the counters become those of DecreaseChain |
| LockContexts.ContextTree.Promote | src/main/java/edu/berkeley/cs186/database/concurrency/LockContext.java:179-229 | the outcome and the state are those of PromoteStep |
| LockContexts.ContextTree.Escalate | src/main/java/edu/berkeley/cs186/database/concurrency/LockContext.java:270-302 | the outcome and the state are those of EscalateStep |
| ChildLockCounts.EmptyTableCounts | src/main/java/edu/berkeley/cs186/database/concurrency/LockContext.java:34-36 | with no locks and no counters, every counter equals the number of locks its transaction holds on the context's direct children |
| ChildLockCounts.AcquireKeepsCounts | src/main/java/edu/berkeley/cs186/database/concurrency/LockContext.java:116-120 | acquire keeps every counter equal to the number of locks its transaction holds on the context's direct children |
| ChildLockCounts.ReleaseStepCorrected | src/main/java/edu/berkeley/cs186/database/concurrency/LockContext.java:144-158 | corrected release: the same checks, and on success only the parent's counter goes down; the tree stays well formed and keeps its flags, and a call that throws changes nothing |
| ChildLockCounts.CorrectedReleaseKeepsCounts | src/main/java/edu/berkeley/cs186/database/concurrency/LockContext.java:144-158 | corrected release keeps every counter equal to the number of locks its transaction holds on the context's direct children |
| ChildLockCounts.CorrectedReleaseConditions | src/main/java/edu/berkeley/cs186/database/concurrency/LockContext.java:144-158 | with exact counters: UnsupportedOperation when readonly; NoLockHeld without a lock; InvalidLock exactly while the transaction holds a lock on a child; on success exactly that lock goes and no lock of the transaction is left on a child |
| ChildLockCounts.ReleaseForgetsChildLock | src/main/java/edu/berkeley/cs186/database/concurrency/LockContext.java:304-315 | as written, after IX on db, IX on db/t and S on db/t/p, releasing db/t/p and then db both succeed while db/t is still locked, and the counters are no longer exact; the corrected release of db throws InvalidLock |
| LockUtil.AllAncestors | src/main/java/edu/berkeley/cs186/database/concurrency/LockUtil.java:89-98 | the strict ancestors, root first, one per level |
| LockUtil.AncestorAction | src/main/java/edu/berkeley/cs186/database/concurrency/LockUtil.java:51-74 | at most one call, always on that ancestor |
| LockUtil.TargetActionsForS | src/main/java/edu/berkeley/cs186/database/concurrency/LockUtil.java:57-63 | exactly one call, on the context itself |
| LockUtil.FinalBlock | src/main/java/edu/berkeley/cs186/database/concurrency/LockUtil.java:76-85 | one or two calls, all on the context itself |
| LockUtil.Plan | src/main/java/edu/berkeley/cs186/database/concurrency/LockUtil.java:36-87 | every call is on the context or on one of its strict ancestors |
| LockUtil.RunPlanStopsAtError | src/main/java/edu/berkeley/cs186/database/concurrency/LockUtil.java:36-87 | once a call has thrown, the later calls are never made |
| LockUtil.RunPlanFrame | src/main/java/edu/berkeley/cs186/database/concurrency/LockUtil.java:36-87 | calls on other contexts never change the lock held on a context |
| LockUtil.LockAncestors | src/main/java/edu/berkeley/cs186/database/concurrency/LockUtil.java:50-75 | the calls made so far are a prefix of the plan's ancestor calls (all of them unless one threw), and the new state is that of running them |
| LockUtil.TargetCallsForS | src/main/java/edu/berkeley/cs186/database/concurrency/LockUtil.java:57-63 | the state after the S target calls is that of running them after the earlier calls |
| LockUtil.FinalBlockCalls | src/main/java/edu/berkeley/cs186/database/concurrency/LockUtil.java:76-85 | the state after the final block is that of running it after the earlier calls |
| LockUtil.ContextCalls | src/main/java/edu/berkeley/cs186/database/concurrency/LockUtil.java:57-85 | the state after the calls on the context itself is that of running them after the earlier calls |
| LockUtil.EnsureSufficientLockHeld | src/main/java/edu/berkeley/cs186/database/concurrency/LockUtil.java:36-87 | the outcome and state are those of running the plan until a call throws; nothing is done for a null transaction or context |
| LockPlans.PlanOrder | src/main/java/edu/berkeley/cs186/database/concurrency/LockUtil.java:49-85 | every call on an ancestor precedes every call on the context; ancestors are visited root first, each at most once |
| LockPlans.PlanOnAncestor | src/main/java/edu/berkeley/cs186/database/concurrency/LockUtil.java:50-75 | each ancestor receives exactly the call its own explicit kind decides; for S, acquire(IS) exactly when it holds NL |
| LockPlans.PlanOnTarget | src/main/java/edu/berkeley/cs186/database/concurrency/LockUtil.java:57-85 | the context receives the S target calls (for S) followed by the final block |
| LockPlans.FreeAcquires | src/main/java/edu/berkeley/cs186/database/concurrency/LockContext.java:97-131 | acquiring IS or IX root first down a chain with no locks succeeds at every step and grants exactly those locks |
| LockPlans.FreePlan | src/main/java/edu/berkeley/cs186/database/concurrency/LockUtil.java:50-85 | as written, on a chain where nothing is held every request acquires the intent kind on each ancestor, root first; an S request then asks for S and X on the context, an X or NL request for X |
| LockPlans.FreeChainGrant | src/main/java/edu/berkeley/cs186/database/concurrency/LockContext.java:97-131 | an intent kind on every strict ancestor, then a permitted kind on the context, all succeed |
| LockPlans.GrantedChainPermits | src/main/java/edu/berkeley/cs186/database/concurrency/LockType.java:79-88 | after those grants, every lock on the chain is permitted by its parent's lock |
| LockPlans.AcquireXUnderIS | src/main/java/edu/berkeley/cs186/database/concurrency/LockContext.java:97-131 | acquire(X) on a locked context under an IS parent throws InvalidLock; at a root it throws DuplicateLockRequest |
| LockPlans.SharedRequestOnFreeChainThrows | src/main/java/edu/berkeley/cs186/database/concurrency/LockUtil.java:50-85 | as written, an S request where nothing is held grants IS up the chain and S on the context, then throws |
| LockPlans.CorrectedRequestOnFreeChain | src/main/java/edu/berkeley/cs186/database/concurrency/LockUtil.java:50-85 | corrected, an S or X request where nothing is held succeeds; the context's lock meets the request, and every lock is permitted by its parent's |
| LockPlans.PlansAgreeBesideS | src/main/java/edu/berkeley/cs186/database/concurrency/LockUtil.java:64-85 | for X and NL requests the corrected plan is the plan as written |
| LockPlans.ExclusiveRequestOnFreeChain | src/main/java/edu/berkeley/cs186/database/concurrency/LockUtil.java:64-85 | as written, an X request where nothing is held succeeds, with IX on every ancestor and X on the context |
| LockSufficiency.IntentAncestorsNoCalls | src/main/java/edu/berkeley/cs186/database/concurrency/LockUtil.java:64-75 | for an X or NL request, ancestors holding IX receive no call |
| LockSufficiency.SufficientXThrows | src/main/java/edu/berkeley/cs186/database/concurrency/LockUtil.java:76-85 | as written, with IX on every ancestor and X on the context, an X request throws NoLockHeld and changes nothing, although the lock held meets the request |
| LockSufficiency.RootSharedStaysShared | src/main/java/edu/berkeley/cs186/database/concurrency/LockUtil.java:81-82 | as written, with S on a root, an X request returns normally and changes nothing, so the lock held still does not meet the request |
| LockSufficiency.EnsureSufficient | src/main/java/edu/berkeley/cs186/database/concurrency/LockUtil.java:23-26 | corrected: when the lock held, explicitly or through an ancestor, meets the request, the call returns normally and changes nothing; the tree stays well formed |
| LockSufficiency.EnsureSufficientMeetsRequest | src/main/java/edu/berkeley/cs186/database/concurrency/LockUtil.java:23-26 | corrected: an S or X request on a context whose lock already suffices, or where nothing is held, succeeds and leaves a lock that meets the request |
| LockSufficiency.SufficientXKept | src/main/java/edu/berkeley/cs186/database/concurrency/LockUtil.java:23-26 | corrected: on the state where the call as written throws, the call succeeds and changes nothing |
| Records.Compare | src/main/java/edu/berkeley/cs186/database/query/SortOperator.java:31-36 | negative, zero or positive exactly as the sort-column values compare |
| Records.CompareTotalPreorder | src/main/java/edu/berkeley/cs186/database/query/SortOperator.java:31-36 | the comparator is reflexive, antisymmetric in sign, and transitive |
| Records.CompareOnlyByKey | src/main/java/edu/berkeley/cs186/database/query/SortOperator.java:31-36 | records with equal sort-column values compare the same against every record |
| Records.SortByKey | src/main/java/edu/berkeley/cs186/database/query/SortOperator.java:93 | sorted by the column, and a permutation of the input |
| Records.ChunksShape | src/main/java/edu/berkeley/cs186/database/query/SortOperator.java:215-219 | the blocks concatenate back to the input; each has between 1 and k records; all but the last have exactly k |
| Records.ChunksCount | src/main/java/edu/berkeley/cs186/database/query/SortOperator.java:176-177 | there are n / k full blocks, plus one more exactly when k does not divide n |
| ExternalSort.SortRun | src/main/java/edu/berkeley/cs186/database/query/SortOperator.java:88-96 | the run is sorted and is a permutation of the records |
| ExternalSort.MinIndex | src/main/java/edu/berkeley/cs186/database/query/SortOperator.java:135 | poll picks an entry whose key is no greater than any other queued key |
| ExternalSort.OpenRuns | src/main/java/edu/berkeley/cs186/database/query/SortOperator.java:124-131 | afterwards, each non-empty run has exactly one entry in the queue (its first record); the merge invariant holds |
| ExternalSort.MergeDone | src/main/java/edu/berkeley/cs186/database/query/SortOperator.java:134-144 | an empty queue means every run was read to its end, and the output is sorted and holds exactly their records |
| ExternalSort.MergeSortedRuns | src/main/java/edu/berkeley/cs186/database/query/SortOperator.java:113-150 | the merged run is sorted, is a permutation of all the runs' records, and has their total length |
| ExternalSort.MergeFullGroups | src/main/java/edu/berkeley/cs186/database/query/SortOperator.java:182-188 | one merged run per full group of numBuffers - 1 runs; the bounds end where the leftover starts |
| ExternalSort.MergedGroupsKeepRecords | src/main/java/edu/berkeley/cs186/database/query/SortOperator.java:172-197 | merging every group keeps the records and leaves every run sorted |
| ExternalSort.MergePass | src/main/java/edu/berkeley/cs186/database/query/SortOperator.java:172-197 | corrected: one sorted run per group of numBuffers - 1 runs, the last group shorter; together they hold exactly the input's records |
| ExternalSort.MergePassAsWritten | src/main/java/edu/berkeley/cs186/database/query/SortOperator.java:172-197 | as written: succeeds exactly when the run count is a multiple of numBuffers - 1 or numBuffers is 3, and then agrees with MergePass |
| ExternalSort.InitialRuns | src/main/java/edu/berkeley/cs186/database/query/SortOperator.java:215-219 | one sorted run per block of numBuffers pages, each a permutation of its block; no runs exactly when the source is empty |
| ExternalSort.Sort | src/main/java/edu/berkeley/cs186/database/query/SortOperator.java:207-226 | corrected (each pass is the corrected MergePass): None (the get(0) fault) exactly for an empty source; otherwise a sorted permutation of the source |
| ExternalSort.SortOperator.constructor | src/main/java/edu/berkeley/cs186/database/query/SortOperator.java:21-29 | the parameters are stored, and nothing is sorted yet |
| ExternalSort.SortOperator.BacktrackingIterator | src/main/java/edu/berkeley/cs186/database/query/SortOperator.java:70-73 | corrected (sorts with the corrected Sort): sorts at most once and then returns the cached run; the run is a sorted permutation of the source |
| BlockNestedLoopJoin.BlockJoinIsNestedLoopJoin | src/main/java/edu/berkeley/cs186/database/query/join/BNLJOperator.java:135-169 | the block-by-page order outputs the same records as the simple record-by-record nested loop join |
| BlockNestedLoopJoin.BlockJoinOfChunks | src/main/java/edu/berkeley/cs186/database/query/join/BNLJOperator.java:90-113 | over the blocks and pages the sources are cut into, the join holds exactly the pairs of the two inputs |
| BlockNestedLoopJoin.JoinRecordsMembers | src/main/java/edu/berkeley/cs186/database/query/join/BNLJOperator.java:142 | a record is output exactly when it is some left record concatenated with some right record whose join values are equal |
| BlockNestedLoopJoin.WalkIsRest | src/main/java/edu/berkeley/cs186/database/query/join/BNLJOperator.java:140-167 | running the four cases from any position yields exactly the rest of the block join |
| BlockNestedLoopJoin.RestCompare | src/main/java/edu/berkeley/cs186/database/query/join/BNLJOperator.java:141-144 | case 1 outputs the pair when the keys match, and otherwise moves to the next right record |
| BlockNestedLoopJoin.RestNextLeft | src/main/java/edu/berkeley/cs186/database/query/join/BNLJOperator.java:145-149 | case 2 loses no output |
| BlockNestedLoopJoin.RestNextPage | src/main/java/edu/berkeley/cs186/database/query/join/BNLJOperator.java:150-156 | case 3 loses no output |
| BlockNestedLoopJoin.RestNextBlock | src/main/java/edu/berkeley/cs186/database/query/join/BNLJOperator.java:157-163 | case 4 loses no output |
| BlockNestedLoopJoin.RestExhausted | src/main/java/edu/berkeley/cs186/database/query/join/BNLJOperator.java:164-168 | with every iterator exhausted, nothing is left to output |
| BlockNestedLoopJoin.BNLJIterator.constructor | src/main/java/edu/berkeley/cs186/database/query/join/BNLJOperator.java:65-75 | first block and first page fetched; the left side is cut into blocks of (numBuffers - 2) pages and the right side into pages; the output to come is the block join, which holds exactly the pairs of the inputs |
| BlockNestedLoopJoin.BNLJIterator.FetchNextLeftBlock | src/main/java/edu/berkeley/cs186/database/query/join/BNLJOperator.java:90-97 | the next block becomes current, is marked at its start, and its first record becomes the left record |
| BlockNestedLoopJoin.BNLJIterator.FetchNextRightPage | src/main/java/edu/berkeley/cs186/database/query/join/BNLJOperator.java:110-113 | the next page becomes current, marked at its start; nothing else changes |
| BlockNestedLoopJoin.BNLJIterator.CompareInHand | src/main/java/edu/berkeley/cs186/database/query/join/BNLJOperator.java:141-144 | on equal keys returns the left record joined with the right one, which is exactly the next output still to come; otherwise moves one right record further and loses no output |
| BlockNestedLoopJoin.BNLJIterator.NextRightRecord | src/main/java/edu/berkeley/cs186/database/query/join/BNLJOperator.java:144 | after a mismatch the next record of the page is taken, or None at its end; the output still to come is unchanged |
| BlockNestedLoopJoin.BNLJIterator.NextComparison | src/main/java/edu/berkeley/cs186/database/query/join/BNLJOperator.java:145-166 | once the page is used up, cases 2 to 4 move strictly forward and lose no output; None only when nothing at all is left |
| BlockNestedLoopJoin.BNLJIterator.NextLeftRecord | src/main/java/edu/berkeley/cs186/database/query/join/BNLJOperator.java:145-149 | the page restarts and the next left record is taken; no output is lost |
| BlockNestedLoopJoin.BNLJIterator.NextRightPage | src/main/java/edu/berkeley/cs186/database/query/join/BNLJOperator.java:150-156 | the block restarts against the next page; no output is lost |
| BlockNestedLoopJoin.BNLJIterator.NextLeftBlock | src/main/java/edu/berkeley/cs186/database/query/join/BNLJOperator.java:157-163 | the next block starts against the right source, rewound to its first page; no output is lost |
| BlockNestedLoopJoin.BNLJIterator.FetchNextRecord | src/main/java/edu/berkeley/cs186/database/query/join/BNLJOperator.java:135-169 | returns the next record of the join and removes it from what is still to come; returns None exactly when nothing is left |
| BlockNestedLoopJoin.BNLJIterator.HasNext | src/main/java/edu/berkeley/cs186/database/query/join/BNLJOperator.java:176-179 | true exactly when the join has output left; what remains to be yielded is unchanged |
| BlockNestedLoopJoin.BNLJIterator.Next | src/main/java/edu/berkeley/cs186/database/query/join/BNLJOperator.java:186-191 | the first remaining record, which is then consumed; None (NoSuchElementException) when none remain |

## Left out

- Lock manager internals: wait queues, blocking, and `synchronized` concurrency are not modelled. The lock manager is its lock table, and each call is atomic.
- `TransactionContext.getTransaction()` reads a thread-local. Here the transaction is a parameter, and `None` stands for null.
- `childContext(long)` (LockContext.java:454-456) only converts its argument to a string. It is covered by `ChildContext`.
- `LockContexts.PromoteStep`: as written, promote checks the context's OWN explicit kind, not its parent's (LockContext.java:185). It also computes the S/IS descendants and never uses them. The model follows the code, and promote changes neither the lock table nor the counters.
- `LockContexts.EscalateStep`: the branches that release descendants (LockContext.java:282-300) need an intent kind as the effective kind, and `getEffectiveLockType` never returns one. They are unreachable, so escalate changes nothing.
- `LockContexts.EffectiveLockType`: the context's own explicit lock is read and never used (LockContext.java:334). The result therefore depends only on the ancestors, as `EffectiveLockTypeIgnoresOwnLock` states. The null-transaction case (line 333) is not modelled: the transaction is always present.
- `toString`, `str`, `sortedBy`, `estimateStats` and `estimateIOCost` (BNLJOperator.java:36-44) are cost estimates and printing. They are not modelled.
- Runs are stored on disk through `makeRun`. Here a run is its sequence of records.
- `ExternalSort.SortOperator.BacktrackingIterator`: it returns the cached run itself rather than an iterator over it. It sorts with the corrected `Sort`, so it does not throw where `sort()` does (see the next line).
- `Records.SortByKey`: Java's list sort is stable, but the model sorts by insertion and claims only sortedness and permutation, not stability.
- `QueryOperator.getBlockIterator` is not part of this model. It is stated as `Chunks`: consecutive blocks of whole pages, each holding `pageSize` records.
- `JoinOperator.compare` is not part of this model. It is stated as equality of the two join-column values (`Key`).
- `Records.Key` gives 0 for a column a record does not have; records of the operator's schema always have it.
- Values are integers. Other `DataBox` types are not modelled.
- `ExternalSort.Sort`: requires numBuffers >= 3. With 2 buffers, each merge group holds one run and `sort()` loops forever.
- `ExternalSort.Sort`: every pass is the corrected `MergePass`. Where `sort()` throws IndexOutOfBounds in the leftover loop of `mergePass`, the model returns the sorted run instead. An example is numBuffers = 4 with pageSize = 1 and 16 records: 4 runs, then subList(3, 5) on a list of 4. `MergePassAsWritten` and the Findings row give the code as written.
- `BlockNestedLoopJoin.BNLJIterator.constructor`: requires numBuffers >= 3, so that a block holds at least one page. `BNLJOperator.java:92` passes numBuffers - 2 to `getBlockIterator` without a check.
- `BlockNestedLoopJoin.BNLJIterator.constructor`: requires both inputs non-empty. As written, an empty left input with a non-empty right one reaches `compare` with a null left record. An empty right input with at least two left records reaches `next()` on an empty page (BNLJOperator.java:148). Both throw. Two excluded inputs do not throw but yield an empty join, and the model leaves them out as well. With both inputs empty, the loop at BNLJOperator.java:140 never runs. With an empty right input and a single left record, cases 2 to 4 all fail and the loop breaks.
- The BacktrackingIterators of the join are `Cursor` values (items, position, mark), so aliasing between iterators is not captured.
- `LockContexts.ReleaseConditions`: InvalidLock is stated by the context's own counter, as the code checks it, not by the locks held on children. The two differ once a release has lowered a grandparent's counter (see Findings); `ChildLockCounts.CorrectedReleaseConditions` states it by the locks held.
- `LockContexts.ContextTree.Release` follows the code as written (ReleaseStep). The corrected release, `ChildLockCounts.ReleaseStepCorrected`, is a separate function; escalate and promote change no counter, so the counting invariant is proved for acquire and release only.
- `LockSufficiency.EnsureSufficient`: it promises a lock that meets the request only where one was already held or where nothing was held. Elsewhere it may end in a promote, and promote changes nothing (LockContext.java:179-229), as `LockSufficiency.RootSharedStaysShared` shows for the code as written.

## Findings

| source | as written | input that shows it | evidently intended | confidence | as-written member | corrected member |
|---|---|---|---|---|---|---|
| src/main/java/edu/berkeley/cs186/database/concurrency/LockUtil.java:76-85 | the final block, which makes the lock X, runs after the S branch too | an S request on a context where the transaction holds nothing: IS goes up the chain and S on the context, then acquire(X) throws InvalidLock (DuplicateLockRequest at a root) | the final block belongs to the branch for X and NL requests only; an S request then ends holding S, with IS on every ancestor | not executed | LockPlans.SharedRequestOnFreeChainThrows | LockPlans.CorrectedRequestOnFreeChain |
| src/main/java/edu/berkeley/cs186/database/query/SortOperator.java:190-195 | the leftover loop runs `leftOver` times over subList(lowerBound, upperBound - 1) | numBuffers = 4 and 4 runs: after one full group of 3, subList(3, 5) is taken on a list of 4 and throws | one final group holding the remaining runs, subList(lowerBound, runs.size()) | not executed | ExternalSort.MergePassAsWritten | ExternalSort.MergePass |
| src/main/java/edu/berkeley/cs186/database/concurrency/LockContext.java:116-120 | acquire raises only the parent's counter, but release (decreaseNumChildLocks, lines 304-315) lowers the counter of every ancestor up to the first zero one | transaction 1 takes IX on db, IX on db/t and S on db/t/p, then releases db/t/p: the counters of db/t and db both drop to zero, so releasing db succeeds while db/t is still locked | acquire and release move the same counter, the parent's, so that each counter equals the number of locks on the context's direct children | not executed | ChildLockCounts.ReleaseForgetsChildLock | ChildLockCounts.CorrectedReleaseConditions |
| src/main/java/edu/berkeley/cs186/database/concurrency/LockUtil.java:46 | the effective lock type is computed and never read, and no branch returns early when the lock held already meets the request, the first case the method's documentation names (lines 23-26) | IX on db and X on db/t, request X on db/t: no ancestor call, then escalate, whose effective kind under an IX parent is NL, so NoLockHeld is thrown | return at once when the explicit or the effective lock type substitutes for the request | not executed | LockSufficiency.SufficientXThrows | LockSufficiency.EnsureSufficientMeetsRequest |

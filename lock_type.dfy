/** The six lock kinds of multigranularity locking and the relations between
    them, exactly as LockType computes them (which differs from the textbook
    tables in two places: a SIX parent permits only NL children, and neither
    X nor SIX substitutes for an intent kind). */
module LockTypes {

  datatype LockType = S | X | IS | IX | SIX | NL {

    /** True for the three intention kinds. */
    predicate IsIntent() {
      this == IX || this == IS || this == SIX
    }
  }

  /** Whether one transaction may hold `a` on a resource while another holds `b`. */
  function Compatible(a: LockType, b: LockType): (r: bool)
    // the symmetric table: NL with everything, IS with all but X, IX with IX, S with S
    ensures r <==> a == NL || b == NL || (a == IS && b != X) || (b == IS && a != X)
                   || (a == IX && b == IX) || (a == S && b == S)
  {
    if a == NL then true
    else if a == IS then b == IS || b == IX || b == S || b == NL || b == SIX
    else if a == IX then b == IS || b == IX || b == NL
    else if a == S then b == IS || b == S || b == NL
    else if a == SIX then b == IS || b == NL
    else b == NL
  }

  /** The lock a parent resource must hold for a lock of kind `a` to be granted below it. */
  function ParentLock(a: LockType): (r: LockType)
    ensures r == NL <==> a == NL
    ensures r == IS <==> a == S || a == IS
    ensures r == IX <==> a == X || a == IX || a == SIX
    ensures r == NL || (r.IsIntent() && r != SIX)
  {
    match a
    case S => IS
    case X => IX
    case IS => IS
    case IX => IX
    case SIX => IX
    case NL => NL
  }

  /** Whether holding `parent` on the parent resource permits `child` on a child. */
  function CanBeParentLock(parent: LockType, child: LockType): (r: bool)
    // an IX parent permits everything, an IS parent IS and S, every parent NL, and nothing else
    ensures r <==> child == NL || parent == IX || (parent == IS && (child == IS || child == S))
  {
    if parent == NL && child == NL then true
    else if child == NL then true
    else if parent == IX then true
    else ParentLock(child) == parent
  }

  /** Whether holding `substitute` meets a requirement of `required`. */
  function Substitutable(substitute: LockType, required: LockType): (r: bool)
    ensures r <==> substitute == required
                   || (required == IS && substitute == IX)
                   || (required == S && (substitute == SIX || substitute == X))
  {
    if required == NL && substitute == NL then true
    else if substitute == required then true
    else if required == IS && substitute == IX then true
    else if required == S then substitute == X || substitute == S || substitute == SIX
    else substitute == X && required == X
  }

  lemma CompatibleSymmetric(a: LockType, b: LockType)
    ensures Compatible(a, b) == Compatible(b, a)
  {
  }

  /** NL is compatible with every kind; X only with NL. */
  lemma CompatibleExtremes(k: LockType)
    ensures Compatible(NL, k) && Compatible(k, NL)
    ensures Compatible(X, k) <==> k == NL
  {
  }

  /** The compatibility row of each intermediate kind. */
  lemma CompatibleRows(k: LockType)
    ensures Compatible(IS, k) <==> k != X
    ensures Compatible(IX, k) <==> k == IS || k == IX || k == NL
    ensures Compatible(S, k) <==> k == IS || k == S || k == NL
    ensures Compatible(SIX, k) <==> k == IS || k == NL
  {
  }

  /** The parent lock of every kind permits that kind, and every parent permits NL. */
  lemma ParentLockPermits(k: LockType, p: LockType)
    ensures CanBeParentLock(ParentLock(k), k)
    ensures CanBeParentLock(p, NL)
  {
  }

  /** What each parent kind permits below it. */
  lemma CanBeParentLockRows(c: LockType)
    ensures CanBeParentLock(IX, c)
    ensures CanBeParentLock(IS, c) <==> c == IS || c == S || c == NL
    ensures CanBeParentLock(S, c) <==> c == NL
    ensures CanBeParentLock(X, c) <==> c == NL
    ensures CanBeParentLock(SIX, c) <==> c == NL
    ensures CanBeParentLock(NL, c) <==> c == NL
  {
  }

  /** For a lock that is not NL, a parent kind permits it exactly when that
      parent kind meets the requirement `ParentLock` states: the two relations
      agree. */
  lemma CanBeParentLockFromParentLock(p: LockType, c: LockType)
    requires c != NL
    ensures CanBeParentLock(p, c) <==> Substitutable(p, ParentLock(c))
  {
  }

  /** Substitution is reflexive, and a requirement of NL is met only by NL. */
  lemma SubstitutableReflexive(k: LockType)
    ensures Substitutable(k, k)
    ensures Substitutable(k, NL) <==> k == NL
  {
  }

  /** Which kinds meet each requirement. */
  lemma SubstitutableColumns(k: LockType)
    ensures Substitutable(k, S) <==> k == S || k == SIX || k == X
    ensures Substitutable(k, IS) <==> k == IS || k == IX
    ensures Substitutable(k, IX) <==> k == IX
    ensures Substitutable(k, SIX) <==> k == SIX
    ensures Substitutable(k, X) <==> k == X
  {
  }
}

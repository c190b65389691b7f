/** Option and Result, used for the source's `Option`, `Result` and error returns. */
module Wrappers {

  datatype Option<+T> = None | Some(value: T) {
    function GetOr(default: T): T {
      match this
      case Some(v) => v
      case None => default
    }
  }

  datatype Result<+T, +E> = Ok(value: T) | Err(error: E)

  /** Of the steps before `i`, one that begins something is followed by none that ends it. */
  ghost predicate Since(i: nat, begins: nat -> bool, ends: nat -> bool) {
    exists k: nat :: k < i && begins(k) && forall m: nat | k < m < i :: !ends(m)
  }

  lemma SinceStep(i: nat, begins: nat -> bool, ends: nat -> bool)
    ensures !Since(0, begins, ends)
    ensures Since(i + 1, begins, ends) <==> begins(i) || (Since(i, begins, ends) && !ends(i))
  {
    if begins(i) {
      assert forall m: nat | i < m < i + 1 :: !ends(m);
    }
    if Since(i, begins, ends) && !ends(i) {
      var k: nat :| k < i && begins(k) && forall m: nat | k < m < i :: !ends(m);
      assert forall m: nat | k < m < i + 1 :: !ends(m);
    }
    if Since(i + 1, begins, ends) && !begins(i) {
      var k: nat :| k < i + 1 && begins(k) && forall m: nat | k < m < i + 1 :: !ends(m);
      assert k < i && !ends(i);
    }
  }

  predicate Tracks(holds: nat -> bool, begins: nat -> bool, ends: nat -> bool, k: nat) {
    holds(k + 1) <==> begins(k) || (holds(k) && !ends(k))
  }

  /** What every step begins or leaves as it is, unless it ends it, holds exactly since it last began. */
  lemma {:induction false} SinceTracks(n: nat, holds: nat -> bool, begins: nat -> bool, ends: nat -> bool)
    requires !holds(0) && forall k: nat | k < n :: Tracks(holds, begins, ends, k)
    ensures holds(n) <==> Since(n, begins, ends)
  {
    SinceStep(if n == 0 then 0 else n - 1, begins, ends);
    if n > 0 {
      SinceTracks(n - 1, holds, begins, ends);
      assert Tracks(holds, begins, ends, n - 1);
    }
  }

  predicate Passes(holds: nat -> bool, k: nat) {
    holds(k) ==> holds(k + 1)
  }

  lemma {:induction false} Induct(n: nat, holds: nat -> bool)
    requires holds(0) && forall k: nat | k < n :: Passes(holds, k)
    ensures holds(n)
  {
    if n > 0 {
      Induct(n - 1, holds);
      assert Passes(holds, n - 1);
    }
  }
}

/**
 Propositions that a proof expands only where it asks to. A sealed proposition stands behind a few
 unfoldings, more than the verifier undertakes unasked; `SealedIs` opens and closes it. The number
 of unfoldings is `SealDepth` of some quantity that is not a literal, since literals unfold at once.
 */
module Sealing {
  ghost predicate Sealed<X(!new)>(p: X -> bool, x: X, depth: nat)
    decreases depth
  {
    if depth == 0 then p(x) else Sealed(p, x, depth - 1)
  }

  function SealDepth(size: nat): nat { 4 + size }

  lemma {:induction false} SealedIs<X(!new)>(p: X -> bool, x: X, depth: nat)
    ensures Sealed(p, x, depth) <==> p(x)
    decreases depth
  {
    if depth > 0 {
      SealedIs(p, x, depth - 1);
    }
  }
}

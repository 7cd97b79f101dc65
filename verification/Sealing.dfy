/** Invariants that the verifier is to carry along by name.  A sealed property is quantified over
    a number that plays no role, so that the verifier looks inside only where `Unseal` asks it
    to; it has no other meaning. */
module Sealing {

  ghost predicate Inside<S(!new)>(f: S -> bool, s: S, k: nat) {
    f(s)
  }

  ghost predicate Sealed<S(!new)>(f: S -> bool, s: S) {
    forall k: nat :: Inside(f, s, k)
  }

  lemma Unseal<S(!new)>(f: S -> bool, s: S)
    ensures Sealed(f, s) <==> f(s)
  {
    if Sealed(f, s) {
      assert Inside(f, s, 0);
    }
  }
}

/** What holds from step to step holds over any stretch of a run. */
module Runs {

  /** A reflexive and transitive relation that every step satisfies holds over any stretch. */
  lemma {:induction false} Chain<T(!new)>(run: seq<T>, r: (T, T) -> bool, i: nat, j: nat)
    requires i <= j < |run|
    requires (forall x :: r(x, x)) && forall x, y, z :: r(x, y) && r(y, z) ==> r(x, z)
    requires forall k, l | i <= k < l <= j && l == k + 1 :: r(run[k], run[l])
    ensures r(run[i], run[j])
  {
    if i < j {
      Chain(run, r, i, j - 1);
    }
  }
}

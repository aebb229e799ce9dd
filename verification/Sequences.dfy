/** Sequences of numbers that stand for elements elsewhere. */
module Sequences {

  predicate Within(ids: seq<nat>, n: nat) {
    forall p | 0 <= p < |ids| :: 0 <= ids[p] < n
  }

  predicate Distinct(ids: seq<nat>) {
    forall i, j | 0 <= i < j < |ids| :: ids[i] != ids[j]
  }
}

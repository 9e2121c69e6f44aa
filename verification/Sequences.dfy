/** Sequences of addresses without repetition. */
module Sequences {

  ghost predicate AllDistinct(addresses: seq<nat>) {
    forall i, j :: 0 <= i < j < |addresses| ==> addresses[i] != addresses[j]
  }
}

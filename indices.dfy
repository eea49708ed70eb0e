/** Index streams: sequences of positions into a vertex or attribute array. */
module Indices {
  /** Every entry of `idx` selects an element of an array of `count` elements. */
  predicate AllBelow(idx: seq<nat>, count: nat) {
    forall j :: 0 <= j < |idx| ==> idx[j] < count
  }
}

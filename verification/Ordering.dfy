/** Strictly ascending lists and the smaller of two numbers. */
module Ordering {

  function Min(a: int, b: int): int {
    if a < b then a else b
  }

  ghost predicate Ascending(s: seq<int>) {
    forall i, j | 0 <= i < j < |s| :: s[i] < s[j]
  }
}

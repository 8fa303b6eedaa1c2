module Sequences {
  /** Each number above the ones before it. */
  ghost predicate Ascending(s: seq<nat>) {
    forall i, j :: 0 <= i < j < |s| ==> s[i] < s[j]
  }
}

/** Facts about sequences of strings shared by the progress record and the catalogs. */
module Sequences {

  /** No element occurs twice: the ids of completed items and held badges,
      and the names in a catalog. */
  ghost predicate NoDuplicates(s: seq<string>) {
    forall i, j :: 0 <= i < j < |s| ==> s[i] != s[j]
  }
}

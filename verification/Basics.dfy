/** What several modules need. */
module Basics {
  /** The bytes of a page of a malloc graph, and how many pages its range has. */
  const MG_PAGE: nat := 8388608
  const MG_PAGES: nat := 8192

  datatype Option<+T> = None | Some(value: T)

  function Min(a: nat, b: nat): (r: nat)
    ensures r <= a && r <= b && (r == a || r == b)
  {
    if a <= b then a else b
  }

  function Max(a: nat, b: nat): (r: nat)
    ensures a <= r && b <= r && (r == a || r == b)
  {
    if a <= b then b else a
  }

  ghost predicate NoDuplicates(s: seq<nat>) {
    forall i, j | 0 <= i < j < |s| :: s[i] != s[j]
  }
}

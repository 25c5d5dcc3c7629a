/** Definitions that several components share. */
module Common {
  datatype Option<+T> = None | Some(value: T)

  const PAGE_SIZE: nat := 4096
  const WORD_LIMIT: nat := 0x1_0000_0000_0000_0000

  ghost predicate NoRepeats(s: seq<nat>) { forall i, j :: 0 <= i < j < |s| ==> s[i] != s[j] }

  function Min(a: int, b: int): int { if a <= b then a else b }
}

/**
 Substring tests on column names. The pipeline chooses the role of a column
 (transaction count, capped volume) by asking whether a marker occurs in its
 name, which is Python's `marker in name` on strings.
 */
module Strings {

  /** `p` occurs in `s` starting at offset `i`. */
  predicate OccursAt(s: string, p: string, i: nat)
  {
    i + |p| <= |s| && s[i..i + |p|] == p
  }

  /** Python's `p in s` for two strings. */
  predicate Contains(s: string, p: string)
  {
    exists i: nat | i <= |s| :: OccursAt(s, p, i)
  }

  /** A name that lacks one of the marker's characters does not contain the marker. */
  lemma MissingCharacter(s: string, p: string, j: nat)
    requires j < |p| && p[j] !in s
    ensures !Contains(s, p)
  {
  }
}

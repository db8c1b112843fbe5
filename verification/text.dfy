/** Python's substring test `sub in s` on strings. */
module Text {

  /** `sub` occurs in `s` starting at index `i`. */
  predicate OccursAt(s: string, sub: string, i: int) {
    0 <= i && i + |sub| <= |s| && s[i..i + |sub|] == sub
  }

  /** `sub in s`: `sub` occurs somewhere in `s` (the empty string occurs everywhere). */
  predicate Contains(s: string, sub: string) {
    exists i | 0 <= i <= |s| - |sub| :: OccursAt(s, sub, i)
  }

  /** A string does not contain a word one of whose letters it lacks. */
  lemma {:induction false} MissingLetter(s: string, word: string, j: int)
    requires 0 <= j < |word| && word[j] !in s
    ensures !Contains(s, word)
  {
    forall i
      ensures !OccursAt(s, word, i)
    {
      if 0 <= i && i + |word| <= |s| {
        assert s[i + j] in s;
        assert s[i..i + |word|][j] == s[i + j];
      }
    }
  }

  /** Every string contains itself. */
  lemma ContainsSelf(s: string)
    ensures Contains(s, s)
  {
    assert OccursAt(s, s, 0);
  }
}

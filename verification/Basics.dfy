/** Small notions that several components share. */
module Basics {

  function Max(a: int, b: int): int {
    if a > b then a else b
  }

  predicate IsDigit(c: char) {
    '0' <= c <= '9'
  }

  /** word stands in t from position i on. */
  predicate StartsAt(t: string, i: nat, word: string) {
    i + |word| <= |t| && t[i..i + |word|] == word
  }
}

/** What several modules use. */
module Basics {

  datatype Option<T> = None | Some(value: T)

  lemma SubsetSize<T>(a: set<T>, b: set<T>)
    requires a <= b
    ensures |a| <= |b|
  {
    assert b == a + (b - a);
  }

  // ----- remainders

  lemma EightsAside(m: int, r: int)
    ensures (8 * m + r) % 8 == r % 8
  {
  }

  lemma TwosAside(m: int, r: int)
    ensures (2 * m + r) % 2 == r % 2
  {
  }
}

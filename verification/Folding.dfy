/** Folds from the left, one element after the other. */
module Folding {

  function FoldLeft<T, E>(step: (T, E) -> T, start: T, elements: seq<E>): T {
    if elements == [] then start
    else step(FoldLeft(step, start, elements[..|elements| - 1]), elements[|elements| - 1])
  }

  lemma FoldOneMore<T, E>(step: (T, E) -> T, start: T, elements: seq<E>, e: E)
    ensures FoldLeft(step, start, elements + [e]) == step(FoldLeft(step, start, elements), e)
  {
    assert (elements + [e])[..|elements|] == elements;
  }

  /** Folding a concatenation is folding its second half onto the fold of the first. */
  lemma {:induction false} FoldSplits<T, E>(step: (T, E) -> T, start: T, a: seq<E>, b: seq<E>)
    ensures FoldLeft(step, start, a + b) == FoldLeft(step, FoldLeft(step, start, a), b)
  {
    if b == [] {
      assert a + b == a;
    } else {
      var n := |b| - 1;
      FoldSplits(step, start, a, b[..n]);
      assert (a + b)[..|a + b| - 1] == a + b[..n];
    }
  }
}

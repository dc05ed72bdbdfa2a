/** Left folds over sequences. */
module Folds {
  function FoldLeft<S, B>(f: (S, B) -> S, s: S, blocks: seq<B>): S {
    if blocks == [] then s
    else f(FoldLeft(f, s, blocks[..|blocks| - 1]), blocks[|blocks| - 1])
  }

  /** Folding over a concatenation resumes from the state the first part leaves. */
  lemma {:induction false} FoldLeftComposes<S, B>(f: (S, B) -> S, s: S, a: seq<B>, b: seq<B>)
    ensures FoldLeft(f, s, a + b) == FoldLeft(f, FoldLeft(f, s, a), b)
    decreases |b|
  {
    if b == [] {
      assert a + b == a;
    } else {
      var n := |b| - 1;
      FoldLeftComposes(f, s, a, b[..n]);
      assert (a + b)[..|a| + n] == a + b[..n];
    }
  }
}

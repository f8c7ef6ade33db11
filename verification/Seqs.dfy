/** Lists and the sets of their elements. */
module Seqs {
  ghost predicate Distinct<T>(s: seq<T>) { forall i, j | 0 <= i < j < |s| :: s[i] != s[j] }

  ghost function ToSet<T>(s: seq<T>): set<T> { set x | x in s }

  lemma {:induction false} DistinctSize<T>(s: seq<T>)
    requires Distinct(s)
    ensures |ToSet(s)| == |s|
  {
    if s != [] {
      var rest := s[..|s| - 1];
      DistinctSize(rest);
      assert ToSet(s) == ToSet(rest) + {s[|s| - 1]};
      assert s[|s| - 1] !in rest;
    }
  }

  /** The state after all of `calls`, one after the other. */
  function Folded<S, C>(step: (S, C) -> S, start: S, calls: seq<C>): S {
    if calls == [] then start else step(Folded(step, start, calls[..|calls| - 1]), calls[|calls| - 1])
  }

  lemma {:induction false} FoldedTwice<S, C>(step: (S, C) -> S, start: S, first: seq<C>, more: seq<C>)
    ensures Folded(step, start, first + more) == Folded(step, Folded(step, start, first), more)
  {
    if more == [] {
      assert first + more == first;
    } else {
      var before := more[..|more| - 1];
      assert (first + more)[..|first + more| - 1] == first + before;
      FoldedTwice(step, start, first, before);
    }
  }
}

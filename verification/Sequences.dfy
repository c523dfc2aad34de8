/** Sequences without repetition, and facts about sequences that hold the same elements. */
module Sequences {

  ghost predicate Distinct<T>(xs: seq<T>) {
    forall i, j :: 0 <= i < j < |xs| ==> xs[i] != xs[j]
  }

  lemma IndexIn<T>(x: T, xs: seq<T>, ys: seq<T>) returns (k: nat)
    requires x in xs && multiset(ys) == multiset(xs)
    ensures k < |ys| && ys[k] == x
  {
    assert x in multiset(ys);
    k :| 0 <= k < |ys| && ys[k] == x;
  }
}

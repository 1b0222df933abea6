/** What several modules share: the one result wrapper, a fact about sets, and picking from a list in order. */
module Wrappers {

  datatype Option<+T> = None | Some(value: T)

  lemma SubsetIsNoLarger<T>(a: set<T>, b: set<T>)
    requires a <= b
    ensures |a| <= |b|
  {
    assert b == a + (b - a);
  }

  /** Increasing positions of `whole` at which the elements of `part` are. */
  ghost predicate PicksInOrder<T>(whole: seq<T>, part: seq<T>, ps: seq<nat>) {
    && |ps| == |part|
    && (forall i :: 0 <= i < |ps| ==> ps[i] < |whole| && part[i] == whole[ps[i]])
    && forall i, j :: 0 <= i < j < |ps| ==> ps[i] < ps[j]
  }

  lemma SkipFirst<T>(first: T, whole: seq<T>, part: seq<T>, ps: seq<nat>) returns (qs: seq<nat>)
    requires PicksInOrder(whole, part, ps)
    ensures PicksInOrder([first] + whole, part, qs) && forall i :: 0 <= i < |qs| ==> qs[i] > 0
  {
    qs := seq(|ps|, i requires 0 <= i < |ps| => ps[i] + 1);
  }

  lemma PickFirst<T>(first: T, whole: seq<T>, part: seq<T>, qs: seq<nat>)
    requires PicksInOrder([first] + whole, part, qs) && forall i :: 0 <= i < |qs| ==> qs[i] > 0
    ensures PicksInOrder([first] + whole, [first] + part, [0] + qs)
  {
  }
}

/** Lists that enumerate a set, as walking a map yields them. */
module Listings {

  /** xs lists the members of s, each once. */
  ghost predicate Lists(xs: seq<string>, s: set<string>)
  {
    && (forall x :: x in s <==> x in xs)
    && (forall i, j :: 0 <= i < j < |xs| ==> xs[i] != xs[j])
  }

  lemma {:induction false} ListSize(xs: seq<string>, s: set<string>)
    requires Lists(xs, s)
    ensures |xs| == |s|
    decreases |xs|
  {
    if xs == [] {
      assert s == {};
    } else {
      var last := xs[|xs| - 1];
      var front := xs[..|xs| - 1];
      assert xs == front + [last] && last in xs;
      ListSize(front, s - {last});
    }
  }
}

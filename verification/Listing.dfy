/** Listing a set in whatever order a Go map iteration yields. */
module Listing {
  /** Every element exactly once. */
  ghost predicate Lists<C>(order: seq<C>, s: set<C>) {
    && (forall i, j | 0 <= i < j < |order| :: order[i] != order[j])
    && (forall c | c in order :: c in s)
    && (forall c | c in s :: c in order)
  }

  lemma {:induction false} ListsHaveSize<C>(order: seq<C>, s: set<C>)
    requires Lists(order, s)
    ensures |order| == |s|
    decreases |order|
  {
    if order == [] {
      assert s == {};
    } else {
      var last, front := order[|order| - 1], order[..|order| - 1];
      assert order == front + [last];
      assert last in order && last !in front;
      ListsHaveSize(front, s - {last});
    }
  }
}

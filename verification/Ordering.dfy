/** Walking sorted keys, as a BTreeMap does. */
module Ordering {
  lemma HasMember(s: set<int>)
    ensures s == {} || exists k :: k in s
  {
    if forall k: int :: k !in s {
      assert s == {};
    }
  }

  lemma {:induction false} SmallestExists(s: set<int>) returns (k: int)
    requires s != {}
    ensures k in s && forall j <- s :: k <= j
    decreases s
  {
    HasMember(s);
    k :| k in s;
    if x :| x in s && x < k {
      var others := s - {k};
      assert x in others && forall j <- s :: j == k || j in others;
      var least := SmallestExists(others);
      assert least <= x;
      k := least;
    }
  }

  /** The keys from the least to the greatest. */
  method Ascending(s: set<int>) returns (order: seq<int>)
    ensures forall i, j | 0 <= i < j < |order| :: order[i] < order[j]
    ensures forall k :: k in order <==> k in s
  {
    order := [];
    var rest := s;
    while rest != {}
      invariant rest <= s
      invariant forall i, j | 0 <= i < j < |order| :: order[i] < order[j]
      invariant forall k :: k in s <==> k in order || k in rest
      invariant forall i, j | 0 <= i < |order| && j in rest :: order[i] < j
      decreases |rest|
    {
      ghost var least := SmallestExists(rest);
      var k :| k in rest && forall j <- rest :: k <= j;
      order, rest := order + [k], rest - {k};
    }
  }
}

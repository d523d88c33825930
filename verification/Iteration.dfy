/** Going through a set of sockets in some order, of which nothing else is known, as with an unordered_set. */
module Iteration {

  /** Every element once. */
  ghost predicate Lists(order: seq<int>, s: set<int>) {
    && (forall x :: x in order <==> x in s)
    && forall i, j :: 0 <= i < j < |order| ==> order[i] != order[j]
  }

  lemma Inhabited(s: set<int>)
    requires s != {}
    ensures exists x :: x in s
  {
    if !exists x :: x in s {
      assert false;
    }
  }

  /** One more round of a loop that has listed all but the rest. */
  lemma ListsMore(order: seq<int>, s: set<int>, rest: set<int>, x: int)
    requires Lists(order, s - rest) && rest <= s && x in rest
    ensures Lists(order + [x], s - (rest - {x})) && (order + [x])[..|order|] == order
  {
    var more := order + [x];
    assert s - (rest - {x}) == (s - rest) + {x};
    forall i, j | 0 <= i < j < |more|
      ensures more[i] != more[j]
    {
      assert more[i] == order[i] && order[i] in order;
    }
  }

  lemma ListsAll(order: seq<int>, s: set<int>)
    requires Lists(order, s - {})
    ensures Lists(order, s)
  {
    assert s - {} == s;
  }

  ghost function Elements(order: seq<int>): set<int> {
    set k | k in order
  }

  lemma ElementsOf(order: seq<int>, s: set<int>)
    requires Lists(order, s)
    ensures Elements(order) == s
  {
    forall k
      ensures k in Elements(order) <==> k in s
    {
      assert k in order <==> k in s;
    }
  }
}

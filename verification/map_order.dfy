/** Go visits a map in any order: an order visits every key once. */
module MapOrder {
  ghost predicate IsOrder<V>(m: map<string, V>, order: seq<string>) {
    && (forall k :: k in order <==> k in m)
    && (forall i, j :: 0 <= i < j < |order| ==> order[i] != order[j])
  }

  lemma {:induction false} SomeOrderOf(s: set<string>) returns (order: seq<string>)
    ensures forall k :: k in order <==> k in s
    ensures forall i, j :: 0 <= i < j < |order| ==> order[i] != order[j]
  {
    order := [];
    var rest := s;
    while rest != {}
      invariant rest <= s
      invariant forall k :: k in order <==> k in s && k !in rest
      invariant forall i, j :: 0 <= i < j < |order| ==> order[i] != order[j]
      decreases rest
    {
      var k :| k in rest;
      order := order + [k];
      rest := rest - {k};
    }
  }

  lemma JoinOrders(early: seq<string>, late: seq<string>)
    requires forall i, j :: 0 <= i < j < |early| ==> early[i] != early[j]
    requires forall i, j :: 0 <= i < j < |late| ==> late[i] != late[j]
    requires forall k :: k in early ==> k !in late
    ensures forall i, j :: 0 <= i < j < |early + late| ==> (early + late)[i] != (early + late)[j]
  {
    forall i, j | 0 <= i < j < |early + late|
      ensures (early + late)[i] != (early + late)[j]
    {
      if i < |early| <= j {
        assert early[i] in early && late[j - |early|] in late;
      }
    }
  }

  lemma {:induction false} DistinctLength(order: seq<string>)
    requires forall i, j :: 0 <= i < j < |order| ==> order[i] != order[j]
    ensures |set k | k in order| == |order|
  {
    if order != [] {
      var n := |order| - 1;
      DistinctLength(order[..n]);
      assert (set k | k in order) == (set k | k in order[..n]) + {order[n]};
    }
  }

  lemma OrderLength<V>(m: map<string, V>, order: seq<string>)
    requires IsOrder(m, order)
    ensures |order| == |m|
  {
    DistinctLength(order);
    assert (set k | k in order) == m.Keys;
  }
}

/** Sorting of positions by a key, as a stable insertion sort. */
module Ordering {

  predicate Distinct(order: seq<nat>)
  {
    forall a, b :: 0 <= a < b < |order| ==> order[a] != order[b]
  }

  predicate Sorted(order: seq<nat>, before: (nat, nat) -> bool)
  {
    forall a, b :: 0 <= a < b < |order| ==> before(order[a], order[b])
  }

  predicate SameElements(a: seq<nat>, b: seq<nat>)
  {
    (forall k :: k in a ==> k in b) && (forall k :: k in b ==> k in a)
  }

  ghost predicate Linear(before: (nat, nat) -> bool, domain: seq<nat>)
  {
    && (forall a, b :: a in domain && b in domain ==> before(a, b) || before(b, a))
    && (forall a, b, c :: a in domain && b in domain && c in domain && before(a, b) && before(b, c) ==> before(a, c))
  }

  function Insert(order: seq<nat>, i: nat, n: nat): (r: seq<nat>)
    requires i <= |order|
    ensures |r| == |order| + 1 && r[i] == n
    ensures forall a :: 0 <= a < |order| ==> r[if a < i then a else a + 1] == order[a]
    ensures forall b :: 0 <= b < |r| ==> r[b] == if b < i then order[b] else if b == i then n else order[b - 1]
  {
    order[..i] + [n] + order[i..]
  }

  lemma InsertKeepsElements(order: seq<nat>, i: nat, n: nat)
    requires i <= |order|
    ensures forall k :: k in Insert(order, i, n) <==> k in order || k == n
  {
    var r := Insert(order, i, n);
    forall k | k in order ensures k in r {
      var a :| 0 <= a < |order| && order[a] == k;
      assert r[if a < i then a else a + 1] == k;
    }
  }

  lemma InsertKeepsSorted(order: seq<nat>, i: nat, n: nat, before: (nat, nat) -> bool, domain: seq<nat>)
    requires i <= |order| && Distinct(order) && Sorted(order, before) && n !in order
    requires Linear(before, domain) && n in domain && forall k :: k in order ==> k in domain
    requires forall a :: 0 <= a < i ==> before(order[a], n)
    requires i == |order| || !before(order[i], n)
    ensures Distinct(Insert(order, i, n)) && Sorted(Insert(order, i, n), before)
  {
    var r := Insert(order, i, n);
    forall a, b | 0 <= a < b < |r|
      ensures r[a] != r[b] && before(r[a], r[b])
    {
      if a == i {
        assert order[i] in domain && before(n, order[i]);
        if b > i + 1 { assert order[b - 1] in domain && before(order[i], order[b - 1]); }
      }
    }
  }

  method Sort(candidates: seq<nat>, before: (nat, nat) -> bool) returns (order: seq<nat>)
    requires Distinct(candidates) && Linear(before, candidates)
    ensures Distinct(order) && Sorted(order, before) && SameElements(order, candidates)
  {
    order := [];
    for n := 0 to |candidates|
      invariant Distinct(order) && Sorted(order, before) && SameElements(order, candidates[..n])
    {
      var k := candidates[n];
      var i := 0;
      while i < |order| && before(order[i], k)
        invariant 0 <= i <= |order|
        invariant forall a :: 0 <= a < i ==> before(order[a], k)
      {
        i := i + 1;
      }
      InsertKeepsSorted(order, i, k, before, candidates);
      InsertKeepsElements(order, i, k);
      order := Insert(order, i, k);
      assert candidates[..n + 1] == candidates[..n] + [k];
    }
    assert candidates[..|candidates|] == candidates;
  }
}

/** Indices of a table in falling order of a score: numpy's `argsort()[::-1]` and, on
    negated times, a sort from the oldest. */
module Ranking {

  predicate Indices(order: seq<nat>, n: nat) {
    && (forall k :: 0 <= k < |order| ==> order[k] < n)
    && (forall j, k :: 0 <= j < k < |order| ==> order[j] != order[k])
  }

  predicate Descending(order: seq<nat>, scores: seq<real>) {
    forall j, k :: 0 <= j < k < |order| && order[j] < |scores| && order[k] < |scores| ==>
      scores[order[j]] >= scores[order[k]]
  }

  lemma {:induction false} Appended(order: seq<nat>, scores: seq<real>, last: nat)
    requires Indices(order, |scores|) && Descending(order, scores) && last < |scores|
    requires forall x :: x in order ==> x != last && x < |scores| && scores[x] >= scores[last]
    ensures Indices(order + [last], |scores|) && Descending(order + [last], scores)
  {
    assert forall j :: 0 <= j < |order| ==> order[j] in order;
  }

  lemma {:induction false} Inserted(order: seq<nat>, scores: seq<real>, n: nat, p: nat)
    requires Indices(order, n) && Descending(order, scores) && n < |scores| && p <= |order|
    requires forall k :: 0 <= k < p ==> scores[order[k]] >= scores[n]
    requires p < |order| ==> scores[order[p]] < scores[n]
    ensures Indices(order[..p] + [n] + order[p..], n + 1)
    ensures Descending(order[..p] + [n] + order[p..], scores)
  {
  }

  lemma {:induction false} InsertedHas(order: seq<nat>, n: nat, p: nat)
    requires p <= |order|
    ensures forall i :: i in order[..p] + [n] + order[p..] <==> i in order || i == n
  {
    assert order == order[..p] + order[p..];
  }

  lemma {:induction false} Member(order: seq<nat>) returns (i: nat)
    requires order != []
    ensures i in order
  {
    i := order[0];
  }

  /** Distinct scores leave one order for the same indices. */
  lemma {:induction false} OneRanking(a: seq<nat>, b: seq<nat>, scores: seq<real>)
    requires Indices(a, |scores|) && Descending(a, scores) && Indices(b, |scores|) && Descending(b, scores)
    requires forall i :: i in a <==> i in b
    requires forall j, k :: 0 <= j < k < |scores| ==> scores[j] != scores[k]
    ensures a == b
  {
    if a == [] {
      if b != [] {
        var i := Member(b);
      }
    } else {
      assert a[0] in b;
      SameFirst(a, b, scores);
      forall i
        ensures i in a[1..] <==> i in b[1..]
      {
        InTail(a, i);
        InTail(b, i);
      }
      OneRanking(a[1..], b[1..], scores);
    }
  }

  lemma {:induction false} InTail(a: seq<nat>, i: nat)
    requires a != [] && forall j, k :: 0 <= j < k < |a| ==> a[j] != a[k]
    ensures i in a[1..] <==> i in a && i != a[0]
  {
    if i in a && i != a[0] {
      var k :| 0 <= k < |a| && a[k] == i;
      assert a[1..][k - 1] == i;
    }
  }

  lemma {:induction false} SameFirst(a: seq<nat>, b: seq<nat>, scores: seq<real>)
    requires Indices(a, |scores|) && Descending(a, scores) && Indices(b, |scores|) && Descending(b, scores)
    requires a != [] && b != [] && forall i :: i in a <==> i in b
    requires forall j, k :: 0 <= j < k < |scores| ==> scores[j] != scores[k]
    ensures a[0] == b[0]
  {
    assert a[0] in b && b[0] in a;
    var j :| 0 <= j < |b| && b[j] == a[0];
    var k :| 0 <= k < |a| && a[k] == b[0];
    assert scores[b[0]] >= scores[a[0]] && scores[a[0]] >= scores[b[0]];
  }

  /** All indices by falling score; the order of equal scores is left open, as numpy's. */
  method ArgsortDescending(scores: seq<real>) returns (order: seq<nat>)
    ensures Indices(order, |scores|) && Descending(order, scores)
    ensures forall i: nat :: i < |scores| ==> i in order
  {
    order := [];
    for n := 0 to |scores|
      invariant Indices(order, n) && Descending(order, scores)
      invariant forall i: nat :: i < n ==> i in order
    {
      var p := 0;
      while p < |order| && scores[order[p]] >= scores[n]
        invariant p <= |order|
        invariant forall k :: 0 <= k < p ==> scores[order[k]] >= scores[n]
      {
        p := p + 1;
      }
      Inserted(order, scores, n, p);
      InsertedHas(order, n, p);
      order := order[..p] + [n] + order[p..];
    }
  }
}

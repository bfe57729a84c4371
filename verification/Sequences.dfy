/** Sums, and what it means to pick some elements of a list in order. */
module Sequences {
  function Sum(values: seq<nat>): nat {
    if values == [] then 0 else values[0] + Sum(values[1..])
  }

  lemma {:induction false} SumAppend(a: seq<nat>, b: seq<nat>)
    ensures Sum(a + b) == Sum(a) + Sum(b)
  {
    if a == [] {
      assert a + b == b;
    } else {
      assert (a + b)[1..] == a[1..] + b;
      SumAppend(a[1..], b);
    }
  }

  lemma SumLast(values: seq<nat>, last: nat)
    ensures Sum(values + [last]) == Sum(values) + last
  {
    SumAppend(values, [last]);
    assert [last][1..] == [];
  }

  predicate Rising(indices: seq<nat>) {
    forall m, n :: 0 <= m < n < |indices| ==> indices[m] < indices[n]
  }

  lemma RisingNext(indices: seq<nat>, n: nat)
    requires Rising(indices) && forall k :: k in indices ==> k < n
    ensures Rising(indices + [n]) && forall k :: k in indices + [n] ==> k <= n
  {
    forall m | 0 <= m < |indices|
      ensures indices[m] < n
    {
      assert indices[m] in indices;
    }
  }

  predicate Distinct<T(==)>(items: seq<T>) {
    forall j, k :: 0 <= j < k < |items| ==> items[j] != items[k]
  }
}

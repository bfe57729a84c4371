/** Coin selection at one address: both FundsFinder::find_funds overloads. */
module FundsFinder {
  import opened Wrappers
  import opened MachineIntegers
  import opened Sequences
  import opened Transactions

  /** An unspent output as the servers report it. */
  datatype PointValue = PointValue(point: OutPoint, value: U64)

  /** What is selected, and the sum reached. */
  datatype Found = Found(utxos: seq<OutPoint>, gathered: U64)

  /** libbitcoin's points_value::value() adds with overflow checks and throws. */
  datatype FundsError = ValueOverflow

  /** The exact value of the first k points. */
  function PrefixTotal(points: seq<PointValue>, k: nat): (t: nat)
    requires k <= |points|
  {
    if k == 0 then 0 else PrefixTotal(points, k - 1) + points[k - 1].value
  }

  function Total(points: seq<PointValue>): nat {
    PrefixTotal(points, |points|)
  }

  function Points(points: seq<PointValue>): (r: seq<OutPoint>)
    ensures |r| == |points|
    ensures forall i :: 0 <= i < |points| ==> r[i] == points[i].point
  {
    seq(|points|, i requires 0 <= i < |points| => points[i].point)
  }

  function Values(points: seq<PointValue>): (r: seq<nat>)
    ensures |r| == |points|
    ensures forall i :: 0 <= i < |points| ==> r[i] == points[i].value
  {
    seq(|points|, i requires 0 <= i < |points| => points[i].value)
  }

  lemma {:induction false} PrefixTotalIsSum(points: seq<PointValue>, k: nat)
    requires k <= |points|
    ensures PrefixTotal(points, k) == Sum(Values(points[..k]))
  {
    if k > 0 {
      PrefixTotalIsSum(points, k - 1);
      SumLast(Values(points[..k - 1]), points[k - 1].value);
      assert Values(points[..k]) == Values(points[..k - 1]) + [points[k - 1].value];
    }
  }

  /** What is taken is, in order and each once, the outpoints of exactly those outputs that have a value. */
  ghost predicate TakesValued(inputUtxos: seq<PointValue>, taken: seq<OutPoint>) {
    exists indices: seq<nat> :: |indices| == |taken| && ValuedIndices(inputUtxos, |inputUtxos|, indices)
      && forall n :: 0 <= n < |taken| ==> taken[n] == inputUtxos[indices[n]].point
  }

  ghost predicate ValuedIndices(inputUtxos: seq<PointValue>, n: nat, indices: seq<nat>)
    requires n <= |inputUtxos|
  {
    && Rising(indices)
    && (forall k :: 0 <= k < |indices| ==> indices[k] < n)
    && forall k :: 0 <= k < n ==> (k in indices <==> inputUtxos[k].value > 0)
  }

  lemma {:induction false} PositivePicks(points: seq<PointValue>, k: nat) returns (indices: seq<nat>)
    requires k <= |points|
    ensures ValuedIndices(points, k, indices) && |indices| == |Positive(points, k)|
    ensures forall n :: 0 <= n < |indices| ==> Positive(points, k)[n] == points[indices[n]]
  {
    hide ValuedIndices;
    indices := [];
    if k == 0 {
      NoneValued(points);
    } else {
      indices := PositivePicks(points, k - 1);
      ValuedNext(points, k - 1, indices);
      if points[k - 1].value > 0 {
        indices := indices + [k - 1];
      }
    }
  }

  lemma NoneValued(points: seq<PointValue>)
    ensures ValuedIndices(points, 0, [])
  {
  }

  lemma ValuedNext(points: seq<PointValue>, n: nat, indices: seq<nat>)
    requires n < |points| && ValuedIndices(points, n, indices)
    ensures ValuedIndices(points, n + 1, if points[n].value > 0 then indices + [n] else indices)
  {
    hide Rising;
    assert n !in indices;
    RisingNext(indices, n);
  }

  /** Nothing is taken twice if no output is listed twice. */
  lemma TakenDistinct(inputUtxos: seq<PointValue>, taken: seq<OutPoint>)
    requires TakesValued(inputUtxos, taken) && Distinct(Points(inputUtxos))
    ensures Distinct(taken)
  {
    var indices: seq<nat> :| |indices| == |taken| && ValuedIndices(inputUtxos, |inputUtxos|, indices)
      && forall n :: 0 <= n < |taken| ==> taken[n] == inputUtxos[indices[n]].point;
    forall j, k | 0 <= j < k < |taken|
      ensures taken[j] != taken[k]
    {
      assert Points(inputUtxos)[indices[j]] != Points(inputUtxos)[indices[k]];
    }
  }

  /** Those of the first k points that have a value. */
  function Positive(points: seq<PointValue>, k: nat): (r: seq<PointValue>)
    requires k <= |points|
  {
    if k == 0 then []
    else if points[k - 1].value > 0 then Positive(points, k - 1) + [points[k - 1]]
    else Positive(points, k - 1)
  }

  lemma {:induction false} PrefixTotalMonotone(points: seq<PointValue>, j: nat, k: nat)
    requires j <= k <= |points|
    ensures PrefixTotal(points, j) <= PrefixTotal(points, k)
    decreases k
  {
    if j < k {
      PrefixTotalMonotone(points, j, k - 1);
    }
  }

  lemma {:induction false} PrefixTotalOfPrefix(points: seq<PointValue>, more: seq<PointValue>, k: nat)
    requires k <= |points| && points <= more
    ensures PrefixTotal(points, k) == PrefixTotal(more, k)
  {
    if k > 0 {
      PrefixTotalOfPrefix(points, more, k - 1);
    }
  }

  /** Skipping the worthless points loses nothing. */
  lemma {:induction false} TotalOfPositive(points: seq<PointValue>, k: nat)
    requires k <= |points|
    ensures Total(Positive(points, k)) == PrefixTotal(points, k)
  {
    if k > 0 {
      TotalOfPositive(points, k - 1);
      var front := Positive(points, k - 1);
      PrefixTotalOfPrefix(front, front + [points[k - 1]], |front|);
    }
  }

  /** The first k points are worth less than is needed. */
  predicate Short(needed: U64, points: seq<PointValue>, k: nat)
    requires k <= |points|
  {
    PrefixTotal(points, k) < needed
  }

  /** The first prefix from `start` on that is not short, or the whole list. */
  function StopIndex(needed: U64, points: seq<PointValue>, start: nat): (k: nat)
    requires start <= |points|
    ensures start <= k <= |points|
    ensures forall j :: start <= j < k ==> Short(needed, points, j)
    ensures k < |points| ==> !Short(needed, points, k)
    decreases |points| - start
  {
    if start < |points| && Short(needed, points, start) then StopIndex(needed, points, start + 1) else start
  }

  /** How many points are taken. */
  function Taken(needed: U64, points: seq<PointValue>): (k: nat)
    ensures k <= |points|
  {
    StopIndex(needed, points, 0)
  }

  /** What find_funds makes of a list of points. */
  function FundsIn(needed: U64, points: seq<PointValue>): Result<Found, FundsError> {
    if needed > 0 && Total(points) >= TWO_64 then Failure(ValueOverflow)
    else
      var k := Taken(needed, points);
      var gathered := Wrap(PrefixTotal(points, k));
      Success(Found(if gathered < needed then [] else Points(points[..k]), gathered))
  }

  /**
    * find_funds over libbitcoin points. Every round asks for the value of the whole list, not of the point: a list
    * worth 2^64 or more throws in the first round, and one of no value is skipped whole.
    */
  method FindFundsInPoints(needed: U64, points: seq<PointValue>) returns (r: Result<Found, FundsError>)
    ensures r == FundsIn(needed, points)
  {
    hide StopIndex, FundsIn, PrefixTotal;
    var utxos: seq<OutPoint>, gathered: U64 := [], 0;
    var p := 0;
    NothingTaken(points);
    while p < |points| && gathered < needed
      invariant 0 <= p <= |points|
      invariant p > 0 ==> needed > 0 && Total(points) < TWO_64
      invariant gathered == PrefixTotal(points, p) && forall j :: 0 <= j < p ==> Short(needed, points, j)
      invariant if Total(points) > 0 then utxos == Points(points[..p]) else utxos == []
    {
      if Total(points) >= TWO_64 {
        FundsThrow(needed, points);
        return Failure(ValueOverflow);
      }
      NextTotal(points, p);
      if Total(points) > 0 {
        utxos := utxos + [points[p].point];
        gathered := Wrap(gathered + points[p].value);
      }
      p := p + 1;
    }
    if gathered < needed {
      utxos := [];
    }
    FundsDone(needed, points, p);
    return Success(Found(utxos, gathered));
  }

  lemma NothingTaken(points: seq<PointValue>)
    ensures PrefixTotal(points, 0) == 0 && Points(points[..0]) == []
  {
  }

  lemma FundsThrow(needed: U64, points: seq<PointValue>)
    requires needed > 0 && Total(points) >= TWO_64
    ensures FundsIn(needed, points) == Failure(ValueOverflow)
  {
  }

  lemma NextTotal(points: seq<PointValue>, p: nat)
    requires p < |points|
    ensures PrefixTotal(points, p + 1) == PrefixTotal(points, p) + points[p].value <= Total(points)
    ensures Points(points[..p + 1]) == Points(points[..p]) + [points[p].point]
  {
    PrefixTotalMonotone(points, p + 1, |points|);
  }

  /** Where the loop stops. */
  lemma FundsDone(needed: U64, points: seq<PointValue>, p: nat)
    requires p <= |points| && forall j :: 0 <= j < p ==> Short(needed, points, j)
    requires p == |points| || !Short(needed, points, p)
    requires p > 0 ==> needed > 0 && Total(points) < TWO_64
    ensures PrefixTotal(points, p) <= Total(points)
    ensures Wrap(PrefixTotal(points, p)) == PrefixTotal(points, p)
    ensures FundsIn(needed, points) ==
            Success(Found(if Short(needed, points, p) then [] else Points(points[..p]), PrefixTotal(points, p)))
    ensures Total(points) == 0 && !Short(needed, points, p) ==> p == 0
  {
    PrefixTotalMonotone(points, p, |points|);
    assert Taken(needed, points) == p;
    assert points == [] ==> Total(points) == 0;
  }

  /** find_funds over Electrum UTXOs: all of positive value, or none. */
  method FindFundsInUtxos(needed: U64, inputUtxos: seq<PointValue>)
    returns (utxos: seq<OutPoint>, gathered: U64)
    ensures gathered == Wrap(Total(inputUtxos))
    ensures utxos == if gathered < needed then [] else Points(Positive(inputUtxos, |inputUtxos|))
    ensures gathered == Wrap(Sum(Values(inputUtxos)))
    ensures gathered >= needed ==> TakesValued(inputUtxos, utxos)
  {
    hide TakesValued, Sum, Values;
    utxos, gathered := [], 0;
    for i := 0 to |inputUtxos|
      invariant utxos == Points(Positive(inputUtxos, i))
      invariant gathered == Wrap(PrefixTotal(inputUtxos, i))
    {
      var p := inputUtxos[i];
      if p.value > 0 {
        utxos := utxos + [p.point];
        WrapAdd(PrefixTotal(inputUtxos, i), p.value);
        gathered := Wrap(gathered + p.value);
      }
    }
    if gathered < needed {
      utxos := [];
    } else {
      PositiveTaken(inputUtxos);
    }
    PrefixTotalIsSum(inputUtxos, |inputUtxos|);
    assert inputUtxos[..|inputUtxos|] == inputUtxos;
  }

  lemma PositiveTaken(inputUtxos: seq<PointValue>)
    ensures TakesValued(inputUtxos, Points(Positive(inputUtxos, |inputUtxos|)))
  {
    var indices := PositivePicks(inputUtxos, |inputUtxos|);
  }

  /** k is the shortest prefix of the points that covers what is needed. */
  ghost predicate ShortestCover(points: seq<PointValue>, needed: U64, k: nat) {
    && k <= |points|
    && forall j :: 0 <= j <= |points| ==> (PrefixTotal(points, j) >= needed <==> j >= k)
  }

  lemma TakenExactly(needed: U64, points: seq<PointValue>)
    ensures var k := Taken(needed, points);
            if Total(points) >= needed then
              ShortestCover(points, needed, k) && Total(points[..k]) == PrefixTotal(points, k)
            else k == |points|
  {
    var k := Taken(needed, points);
    PrefixTotalOfPrefix(points[..k], points, k);
    forall j | 0 <= j <= |points|
      ensures j < k ==> PrefixTotal(points, j) < needed
      ensures k <= j ==> PrefixTotal(points, k) <= PrefixTotal(points, j)
      ensures PrefixTotal(points, j) <= Total(points)
    {
      PrefixTotalMonotone(points, j, |points|);
      if j < k {
        assert Short(needed, points, j);
      } else {
        PrefixTotalMonotone(points, k, j);
      }
    }
  }

  /**
    * Exactly what the loop finds, on every list: it throws if and only if something is needed and the list is worth
    * 2^64 or more. Otherwise it takes the shortest prefix that covers what is needed, if the whole list does, and
    * else nothing, and reports the exact sum it reached.
    */
  lemma FoundExactly(needed: U64, points: seq<PointValue>)
    ensures FundsIn(needed, points).Failure? <==> needed > 0 && Total(points) >= TWO_64
    ensures FundsIn(needed, points).Success? ==>
              var k, found := Taken(needed, points), FundsIn(needed, points).value;
              if Total(points) >= needed then
                && ShortestCover(points, needed, k) && (k == 0 <==> needed == 0)
                && found.utxos == Points(points[..k]) && found.gathered == Total(points[..k])
              else found == Found([], Total(points))
  {
    var k := Taken(needed, points);
    TakenExactly(needed, points);
    if needed == 0 {
      assert k == 0;
    } else if Total(points) < TWO_64 {
      PrefixTotalMonotone(points, k, |points|);
      WrapExact(PrefixTotal(points, k));
    }
  }
}

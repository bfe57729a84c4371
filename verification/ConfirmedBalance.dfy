/** What the confirmed balance and the unconfirmed impact mean, each on its own, and when they are right. */
module ConfirmedBalance {
  import opened MachineIntegers
  import opened Ledger
  import opened WalletServer
  import opened WalletLedger
  import opened HistoryOrder
  import opened WalletBalances
  import opened HistoryRows

  /** A block height above 0; 0 in the mempool; below 0, that is -1, in the mempool with an unconfirmed parent. */
  datatype HeightClass = Positive | AtZero | Negative | NotZero

  predicate InClass(c: HeightClass, height: int) {
    match c
    case Positive => height > 0
    case AtZero => height == 0
    case Negative => height < 0
    case NotZero => height != 0
  }

  /** Those of the first n items at a height of the class. */
  function AtHeight(all: seq<HistoryItem>, n: nat, c: HeightClass): (r: seq<HistoryItem>)
    requires n <= |all|
  {
    if n == 0 then []
    else AtHeight(all, n - 1, c) + if InClass(c, all[n - 1].height) then [all[n - 1]] else []
  }

  lemma {:induction false} AtHeightMembers(all: seq<HistoryItem>, n: nat, c: HeightClass)
    requires n <= |all|
    ensures forall x :: x in AtHeight(all, n, c) <==> x in all[..n] && InClass(c, x.height)
  {
    if n > 0 {
      assert all[..n] == all[..n - 1] + [all[n - 1]];
      AtHeightMembers(all, n - 1, c);
    }
  }

  lemma {:induction false} AtHeightDistinct(all: seq<HistoryItem>, n: nat, c: HeightClass)
    requires n <= |all| && DistinctTxids(all)
    ensures DistinctTxids(AtHeight(all, n, c))
  {
    if n > 0 {
      AtHeightDistinct(all, n - 1, c);
      var before := AtHeight(all, n - 1, c);
      AtHeightMembers(all, n - 1, c);
      forall k | 0 <= k < |before|
        ensures before[k].txid != all[n - 1].txid
      {
        assert before[k] in all[..n - 1];
      }
    }
  }

  /** The deltas of the first n items, summed over those of the class. */
  function DeltasIn(s: Server, wallet: seq<Address>, all: seq<HistoryItem>, n: nat, c: HeightClass): int
    requires n <= |all|
  {
    if n == 0 then 0
    else
      DeltasIn(s, wallet, all, n - 1, c) +
      if InClass(c, all[n - 1].height) then Delta(ViewOf(s, wallet, all[n - 1].txid)) else 0
  }

  /** The two folds of the source, class by class: height -1 goes to the confirmed balance. */
  lemma {:induction false} FoldsByClass(s: Server, wallet: seq<Address>, all: seq<HistoryItem>, n: nat)
    requires n <= |all|
    ensures DeltasAtZero(s, wallet, all, n, true) == DeltasIn(s, wallet, all, n, AtZero)
    ensures DeltasAtZero(s, wallet, all, n, false) == DeltasIn(s, wallet, all, n, NotZero)
    ensures DeltasIn(s, wallet, all, n, NotZero)
         == DeltasIn(s, wallet, all, n, Positive) + DeltasIn(s, wallet, all, n, Negative)
  {
    hide ViewOf, Delta;
    if n > 0 {
      FoldsByClass(s, wallet, all, n - 1);
    }
  }

  lemma {:induction false} SumsOfPrefix(less: seq<TxBalance>, more: seq<TxBalance>, n: nat)
    requires n <= |less| && less <= more
    ensures Deltas(less, n) == Deltas(more, n) && Received(less, n) == Received(more, n)
  {
    if n > 0 {
      SumsOfPrefix(less, more, n - 1);
    }
  }

  lemma SumsOfOneMore(views: seq<TxBalance>, t: TxBalance)
    ensures Deltas(views + [t], |views| + 1) == Deltas(views, |views|) + Delta(t)
    ensures Received(views + [t], |views| + 1) == Received(views, |views|) + OutputsInside(t.outputs, |t.outputs|)
  {
    SumsOfPrefix(views, views + [t], |views|);
  }

  /** The fold over all transactions that skips the others is the plain sum over the part. */
  lemma {:induction false} PartSums(s: Server, wallet: seq<Address>, all: seq<HistoryItem>, n: nat, c: HeightClass)
    requires n <= |all|
    ensures var part := AtHeight(all, n, c);
            && DeltasIn(s, wallet, all, n, c) == Deltas(Views(s, wallet, part), |part|)
            && Received(Views(s, wallet, part), |part|) <= Received(Views(s, wallet, all), n)
  {
    hide ViewOf, Delta, Views, OutputsInside;
    if n > 0 {
      var x, before := all[n - 1], AtHeight(all, n - 1, c);
      PartSums(s, wallet, all, n - 1, c);
      assert Views(s, wallet, all)[n - 1] == ViewOf(s, wallet, x.txid);
      if InClass(c, x.height) {
        SumsOfOneMore(Views(s, wallet, before), ViewOf(s, wallet, x.txid));
        ViewsOneMore(s, wallet, before, x);
      } else {
        assert AtHeight(all, n, c) == before;
      }
    }
  }

  lemma PartBehaves(s: Server, wallet: seq<Address>, all: seq<HistoryItem>, c: HeightClass)
    requires LedgerOk(s, wallet) && Merged(s, wallet, all)
    ensures Behaved(wallet, Views(s, wallet, AtHeight(all, |all|, c)))
    ensures DistinctAddresses(wallet)
  {
    hide Viewable, Listed;
    MergedListedOnce(s, wallet, all);
    AtHeightDistinct(all, |all|, c);
    AtHeightMembers(all, |all|, c);
    assert all[..|all|] == all;
    ViewsBehave(s, wallet, AtHeight(all, |all|, c));
  }

  /** What the part leaves the wallet, and what it draws on wallet coins that the part did not create. */
  function PartUnspent(s: Server, wallet: seq<Address>, all: seq<HistoryItem>, c: HeightClass): nat {
    UnspentOfAll(wallet, |wallet|, Views(s, wallet, AtHeight(all, |all|, c)))
  }

  function PartOutside(s: Server, wallet: seq<Address>, all: seq<HistoryItem>, c: HeightClass): nat {
    OutsideOfAll(wallet, |wallet|, Views(s, wallet, AtHeight(all, |all|, c)))
  }

  /** Class by class: the signed sum is the value the part leaves unspent, less what it draws on the rest. */
  lemma PartBalance(s: Server, wallet: seq<Address>, all: seq<HistoryItem>, c: HeightClass)
    requires LedgerOk(s, wallet) && Merged(s, wallet, all)
    ensures DeltasIn(s, wallet, all, |all|, c)
         == PartUnspent(s, wallet, all, c) - PartOutside(s, wallet, all, c)
    ensures PartUnspent(s, wallet, all, c) <= Received(Views(s, wallet, all), |all|)
  {
    hide LedgerOk, Merged, ViewOf, Deltas, Received;
    var views := Views(s, wallet, AtHeight(all, |all|, c));
    PartBehaves(s, wallet, all, c);
    PartSums(s, wallet, all, |all|, c);
    DeltasAreUnspent(wallet, views);
    UnspentWithinReceived(wallet, views);
  }

  // ---------- when the results are right ----------

  /**
    * The confirmed balance, a wrapping uint64_t over every height but 0, is the value of the coins that the confirmed
    * transactions leave unspent if and only if the deltas at negative heights, which it should not count, sum to what
    * the confirmed transactions draw on unconfirmed coins.
    */
  lemma ConfirmedExact(s: Server, wallet: seq<Address>, all: seq<HistoryItem>)
    requires LedgerOk(s, wallet) && Merged(s, wallet, all)
    requires Received(Views(s, wallet, all), |all|) < TWO_63
    ensures Wrap(DeltasAtZero(s, wallet, all, |all|, false)) == PartUnspent(s, wallet, all, Positive)
       <==> DeltasIn(s, wallet, all, |all|, Negative) == PartOutside(s, wallet, all, Positive)
  {
    hide LedgerOk, Merged, DeltasAtZero, DeltasIn, PartUnspent, PartOutside;
    FoldsByClass(s, wallet, all, |all|);
    PartBalance(s, wallet, all, Positive);
    NoOverflow(s, wallet, all, |all|, false);
    WrapIs(DeltasAtZero(s, wallet, all, |all|, false), PartUnspent(s, wallet, all, Positive));
  }

  /** Confirmed transactions spend confirmed coins, as in every block chain. Then the confirmed balance is right if and
      only if the deltas at negative heights sum to 0. */
  lemma ConfirmedExactOnChain(s: Server, wallet: seq<Address>, all: seq<HistoryItem>)
    requires LedgerOk(s, wallet) && Merged(s, wallet, all) && SpendsWithin(s, wallet, all, Positive)
    requires Received(Views(s, wallet, all), |all|) < TWO_63
    ensures Wrap(DeltasAtZero(s, wallet, all, |all|, false)) == PartUnspent(s, wallet, all, Positive)
       <==> DeltasIn(s, wallet, all, |all|, Negative) == 0
  {
    hide LedgerOk, Merged, DeltasAtZero, DeltasIn, PartUnspent, PartOutside, SpendsWithin;
    ConfirmedExact(s, wallet, all);
    PartCondition(s, wallet, all, Positive);
  }

  /** The unconfirmed impact, an int64_t at height 0 only, is the signed sum of all unconfirmed transactions if and only
      if the deltas at negative heights, which it leaves out, sum to 0. */
  lemma ImpactLeavesOut(s: Server, wallet: seq<Address>, all: seq<HistoryItem>)
    requires LedgerOk(s, wallet) && Merged(s, wallet, all)
    requires Received(Views(s, wallet, all), |all|) < TWO_63
    ensures AsSigned(Wrap(DeltasAtZero(s, wallet, all, |all|, true)))
         == DeltasIn(s, wallet, all, |all|, AtZero) + DeltasIn(s, wallet, all, |all|, Negative)
       <==> DeltasIn(s, wallet, all, |all|, Negative) == 0
  {
    hide LedgerOk, Merged, DeltasAtZero, DeltasIn;
    FoldsByClass(s, wallet, all, |all|);
    MachineBalancesExact(s, wallet, all);
  }

  /**
    * Taken as it is, height -1 included: the fold is the value that its own transactions leave unspent if and only if
    * they draw on no coin of a transaction at height 0; otherwise it is too low, and may wrap.
    */
  lemma FoldWrapsExactly(s: Server, wallet: seq<Address>, all: seq<HistoryItem>)
    requires LedgerOk(s, wallet) && Merged(s, wallet, all)
    requires Received(Views(s, wallet, all), |all|) < TWO_63
    ensures Wrap(DeltasAtZero(s, wallet, all, |all|, false)) == PartUnspent(s, wallet, all, NotZero)
       <==> PartOutside(s, wallet, all, NotZero) == 0
  {
    hide LedgerOk, Merged, DeltasAtZero, DeltasIn, PartUnspent, PartOutside;
    FoldsByClass(s, wallet, all, |all|);
    PartBalance(s, wallet, all, NotZero);
    NoOverflow(s, wallet, all, |all|, false);
    WrapIs(DeltasAtZero(s, wallet, all, |all|, false), PartUnspent(s, wallet, all, NotZero));
  }

  // ---------- the condition, transaction by transaction ----------

  /** x, of the class, has the input i, which spends a coin of y, not of the class. */
  ghost predicate SpendsAcross(s: Server, wallet: seq<Address>, c: HeightClass, x: HistoryItem, y: HistoryItem,
                               i: BalanceInput)
  {
    InClass(c, x.height) && !InClass(c, y.height) && i in ViewOf(s, wallet, x.txid).inputs && i.fundingTx == y.txid
  }

  /** Nothing of value that was paid to the wallet at a height outside the class is spent at a height of it. */
  ghost predicate SpendsWithin(s: Server, wallet: seq<Address>, all: seq<HistoryItem>, c: HeightClass) {
    forall x, y, i: BalanceInput ::
      x in all && y in all && i.address in wallet && SpendsAcross(s, wallet, c, x, y, i) ==> i.value == 0
  }

  /** The ids of the part are those of its items. */
  lemma IdInPart(s: Server, wallet: seq<Address>, all: seq<HistoryItem>, c: HeightClass, y: HistoryItem)
    requires DistinctTxids(all) && y in all
    ensures y.txid in Ids(Views(s, wallet, AtHeight(all, |all|, c))) <==> InClass(c, y.height)
  {
    hide ViewOf, DistinctTxids;
    var part := AtHeight(all, |all|, c);
    assert all[..|all|] == all;
    AtHeightMembers(all, |all|, c);
    if InClass(c, y.height) {
      var k :| 0 <= k < |part| && part[k] == y;
      assert Ids(Views(s, wallet, part))[k] == y.txid;
    } else {
      forall k | 0 <= k < |part|
        ensures Ids(Views(s, wallet, part))[k] != y.txid
      {
        assert part[k] in part;
        if part[k].txid == y.txid {
          SameTxidSameItem(all, part[k], y);
        }
      }
    }
  }

  lemma SameTxidSameItem(all: seq<HistoryItem>, x: HistoryItem, y: HistoryItem)
    requires DistinctTxids(all) && x in all && y in all && x.txid == y.txid
    ensures x == y
  {
  }

  /** An input from outside the part has a funder at a height outside the class. */
  lemma OutsideIsAcross(s: Server, wallet: seq<Address>, all: seq<HistoryItem>, c: HeightClass, i: BalanceInput)
    returns (x: HistoryItem, y: HistoryItem)
    requires LedgerOk(s, wallet) && Merged(s, wallet, all) && i.address in wallet
    requires InputFromOutside(Views(s, wallet, AtHeight(all, |all|, c)), i)
    ensures x in all && y in all && SpendsAcross(s, wallet, c, x, y, i)
  {
    hide LedgerOk, ViewOf, DistinctTxids;
    var part := AtHeight(all, |all|, c);
    assert all[..|all|] == all;
    AtHeightMembers(all, |all|, c);
    InputsMember(Views(s, wallet, part), |part|, i);
    var k :| 0 <= k < |part| && i in Views(s, wallet, part)[k].inputs;
    x := part[k];
    assert x in part;
    FunderMerged(s, wallet, all, x);
    y :| y in all && y.txid == i.fundingTx;
    IdInPart(s, wallet, all, c, y);
  }

  lemma AcrossIsOutside(s: Server, wallet: seq<Address>, all: seq<HistoryItem>, c: HeightClass, x: HistoryItem,
                        y: HistoryItem, i: BalanceInput)
    requires DistinctTxids(all) && x in all && y in all && SpendsAcross(s, wallet, c, x, y, i)
    ensures InputFromOutside(Views(s, wallet, AtHeight(all, |all|, c)), i)
  {
    hide ViewOf, DistinctTxids;
    var part := AtHeight(all, |all|, c);
    assert all[..|all|] == all;
    AtHeightMembers(all, |all|, c);
    var k :| 0 <= k < |part| && part[k] == x;
    assert i in Views(s, wallet, part)[k].inputs;
    InputsMember(Views(s, wallet, part), |part|, i);
    IdInPart(s, wallet, all, c, y);
  }

  /** A part draws on nothing outside it if and only if, in value, it spends within its class of heights. */
  lemma PartCondition(s: Server, wallet: seq<Address>, all: seq<HistoryItem>, c: HeightClass)
    requires LedgerOk(s, wallet) && Merged(s, wallet, all)
    ensures PartOutside(s, wallet, all, c) == 0 <==> SpendsWithin(s, wallet, all, c)
  {
    hide LedgerOk, ViewOf, SpendsAcross, InputFromOutside, DistinctTxids;
    var views := Views(s, wallet, AtHeight(all, |all|, c));
    assert wallet[..|wallet|] == wallet;
    NothingOutsideOfAllExactly(wallet, |wallet|, views);
    forall i: BalanceInput | i.address in wallet && InputFromOutside(views, i) && SpendsWithin(s, wallet, all, c)
      ensures i.value == 0
    {
      var x, y := OutsideIsAcross(s, wallet, all, c, i);
    }
    forall x, y, i: BalanceInput | x in all && y in all && i.address in wallet && SpendsAcross(s, wallet, c, x, y, i)
      ensures InputFromOutside(views, i)
    {
      AcrossIsOutside(s, wallet, all, c, x, y, i);
    }
  }
}

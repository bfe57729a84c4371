/** What the balance column of the history view means. */
module HistoryRows {
  import opened MachineIntegers
  import opened Ledger
  import opened WalletServer
  import opened WalletLedger
  import opened HistoryOrder
  import opened WalletBalances

  /** The sum of the deltas from row k to the last row. */
  function SuffixSum(s: Server, wallet: seq<Address>, all: seq<HistoryItem>, k: nat): int
    requires k <= |all|
    decreases |all| - k
  {
    if k == |all| then 0 else Delta(ViewOf(s, wallet, all[k].txid)) + SuffixSum(s, wallet, all, k + 1)
  }

  lemma {:induction false} DeltasOfTail(s: Server, wallet: seq<Address>, items: seq<HistoryItem>, n: nat)
    requires items != [] && n <= |items| - 1
    ensures Deltas(Views(s, wallet, items), n + 1)
         == Delta(ViewOf(s, wallet, items[0].txid)) + Deltas(Views(s, wallet, items[1..]), n)
  {
    hide ViewOf;
    if n > 0 {
      DeltasOfTail(s, wallet, items, n - 1);
    }
  }

  lemma {:induction false} SuffixSumIsDeltas(s: Server, wallet: seq<Address>, all: seq<HistoryItem>, k: nat)
    requires k <= |all|
    ensures SuffixSum(s, wallet, all, k) == Deltas(Views(s, wallet, all[k..]), |all| - k)
    decreases |all| - k
  {
    hide ViewOf, Delta, Views;
    if k < |all| {
      SuffixSumIsDeltas(s, wallet, all, k + 1);
      assert all[k..][1..] == all[k + 1..];
      DeltasOfTail(s, wallet, all[k..], |all| - k - 1);
    }
  }

  /** The value of the coins that rows k.. leave unspent in the wallet. */
  function RowUtxoValue(s: Server, wallet: seq<Address>, all: seq<HistoryItem>, k: nat): nat
    requires k <= |all|
  {
    UnspentOfAll(wallet, |wallet|, Views(s, wallet, all[k..]))
  }

  /** What rows k.. draw on wallet coins created in rows above k. */
  function RowOutside(s: Server, wallet: seq<Address>, all: seq<HistoryItem>, k: nat): nat
    requires k <= |all|
  {
    OutsideOfAll(wallet, |wallet|, Views(s, wallet, all[k..]))
  }

  lemma RowsBehave(s: Server, wallet: seq<Address>, all: seq<HistoryItem>, k: nat)
    requires LedgerOk(s, wallet) && Merged(s, wallet, all) && k <= |all|
    ensures Behaved(wallet, Views(s, wallet, all[k..]))
    ensures DistinctAddresses(wallet)
  {
    hide Viewable, Listed;
    MergedListedOnce(s, wallet, all);
    assert forall x :: x in all[k..] ==> x in all;
    ViewsBehave(s, wallet, all[k..]);
  }

  /** Row by row: the suffix sum is the unspent value, less what is drawn from above. Row 0 is the whole wallet. */
  lemma RowBalance(s: Server, wallet: seq<Address>, all: seq<HistoryItem>, k: nat)
    requires LedgerOk(s, wallet) && Merged(s, wallet, all) && k <= |all|
    ensures SuffixSum(s, wallet, all, k) == RowUtxoValue(s, wallet, all, k) - RowOutside(s, wallet, all, k)
    ensures SuffixSum(s, wallet, all, 0) == TotalUnspent(s, wallet, |wallet|)
    ensures HistoriesInOrder(s, wallet) ==> SuffixSum(s, wallet, all, 0) == TotalScan(s, wallet, |wallet|)
  {
    hide LedgerOk, Merged, ViewOf, Carried, DistinctIds, SpentOnce, HistoriesInOrder;
    var rows := all[k..];
    RowsBehave(s, wallet, all, k);
    DeltasAreUnspent(wallet, Views(s, wallet, rows));
    SuffixSumIsDeltas(s, wallet, all, k);
    SuffixSumIsDeltas(s, wallet, all, 0);
    assert all[0..] == all;
    BalancesCompared(s, wallet, all);
  }

  lemma {:induction false} SuffixPrefixBounds(s: Server, wallet: seq<Address>, all: seq<HistoryItem>, k: nat, n: nat)
    requires k + n <= |all|
    ensures Received(Views(s, wallet, all[k..]), n) + Received(Views(s, wallet, all), k)
         == Received(Views(s, wallet, all), k + n)
    ensures Spent(Views(s, wallet, all[k..]), n) + Spent(Views(s, wallet, all), k)
         == Spent(Views(s, wallet, all), k + n)
  {
    hide ViewOf, Views, OutputsInside, InputsInside;
    if n > 0 {
      SuffixPrefixBounds(s, wallet, all, k, n - 1);
      assert Views(s, wallet, all[k..])[n - 1] == Views(s, wallet, all)[k + n - 1];
    }
  }

  // ---------- bounds ----------

  lemma RowBounds(s: Server, wallet: seq<Address>, all: seq<HistoryItem>, k: nat)
    requires LedgerOk(s, wallet) && Merged(s, wallet, all) && k <= |all|
    ensures RowUtxoValue(s, wallet, all, k) <= Received(Views(s, wallet, all), |all|)
    ensures -(Received(Views(s, wallet, all), |all|) as int) <= SuffixSum(s, wallet, all, k)
    ensures SuffixSum(s, wallet, all, k) <= Received(Views(s, wallet, all), |all|)
  {
    hide LedgerOk, Merged, ViewOf, Behaved, DistinctAddresses, Received, Spent, Deltas, SuffixSum, UnspentOfAll;
    var rows := all[k..];
    RowsBehave(s, wallet, all, k);
    UnspentWithinReceived(wallet, Views(s, wallet, rows));
    SuffixPrefixBounds(s, wallet, all, k, |all| - k);
    SuffixSumIsDeltas(s, wallet, all, k);
    ReceivedLessSpent(Views(s, wallet, rows), |rows|);
    WithinReceived(s, wallet, all);
  }

  /**
    * The balance the view shows in row k, a wrapping uint64_t, is the wallet's UTXO value after rows k.. if and only
    * if those rows are closed under spending; otherwise it is wrong, and may have wrapped.
    */
  lemma RowExact(s: Server, wallet: seq<Address>, all: seq<HistoryItem>, k: nat)
    requires LedgerOk(s, wallet) && Merged(s, wallet, all) && k <= |all|
    requires Received(Views(s, wallet, all), |all|) < TWO_63
    ensures Wrap(SuffixSum(s, wallet, all, k)) == RowUtxoValue(s, wallet, all, k)
       <==> RowOutside(s, wallet, all, k) == 0
  {
    hide LedgerOk, Merged, RowUtxoValue, RowOutside;
    var sum := SuffixSum(s, wallet, all, k);
    var value, outside := RowUtxoValue(s, wallet, all, k), RowOutside(s, wallet, all, k);
    RowBalance(s, wallet, all, k);
    RowBounds(s, wallet, all, k);
    WrapIs(sum, value);
  }

  // ---------- when a row, and when every row, is right ----------

  /** The funder of an input from the wallet is in the merged history. */
  lemma FunderMerged(s: Server, wallet: seq<Address>, all: seq<HistoryItem>, x: HistoryItem)
    requires LedgerOk(s, wallet) && Merged(s, wallet, all) && x in all
    ensures forall i :: i in ViewOf(s, wallet, x.txid).inputs && i.address in wallet ==>
              exists y :: y in all && y.txid == i.fundingTx
  {
    hide ViewOf, NoDoubleSpend, Healthy, OneHeight;
    MergedListedOnce(s, wallet, all);
    forall i | i in ViewOf(s, wallet, x.txid).inputs && i.address in wallet
      ensures exists y :: y in all && y.txid == i.fundingTx
    {
      var a := i.address;
      assert x.txid in Txids(s.histories(a));
      HistoryFunded(s, wallet, a);
      var own := s.histories(a);
      var k :| 0 <= k < |own| && Txids(own)[k] == x.txid;
      assert i in Views(s, wallet, own)[k].inputs;
      assert i.fundingTx in Ids(Views(s, wallet, own));
      var j :| 0 <= j < |own| && Ids(Views(s, wallet, own))[j] == i.fundingTx;
      assert own[j] in own;
      assert i.fundingTx in Txids(all);
      var m :| 0 <= m < |all| && Txids(all)[m] == i.fundingTx;
      assert all[m] in all;
    }
  }

  /** Row j has the input i, which spends a coin of row m. */
  ghost predicate SpendsRow(s: Server, wallet: seq<Address>, all: seq<HistoryItem>, j: nat, m: nat, i: BalanceInput)
    requires j < |all| && m < |all|
  {
    i in ViewOf(s, wallet, all[j].txid).inputs && i.fundingTx == all[m].txid
  }

  /** What rows k.. spend from outside them is what one of them spends from a row above. */
  lemma OutsideIsAbove(s: Server, wallet: seq<Address>, all: seq<HistoryItem>, k: nat, i: BalanceInput)
    returns (j: nat, m: nat)
    requires LedgerOk(s, wallet) && Merged(s, wallet, all) && k <= |all| && i.address in wallet
    requires InputFromOutside(Views(s, wallet, all[k..]), i)
    ensures m < k <= j < |all| && SpendsRow(s, wallet, all, j, m, i)
  {
    hide LedgerOk, Merged, ViewOf, Inputs;
    var views := Views(s, wallet, all[k..]);
    InputsMember(views, |views|, i);
    var n :| 0 <= n < |views| && i in views[n].inputs;
    j := k + n;
    FunderMerged(s, wallet, all, all[j]);
    var y :| y in all && y.txid == i.fundingTx;
    m :| m < |all| && all[m] == y;
    IdsBelow(s, wallet, all, k);
  }

  lemma IdsBelow(s: Server, wallet: seq<Address>, all: seq<HistoryItem>, k: nat)
    requires k <= |all|
    ensures forall n :: k <= n < |all| ==> all[n].txid in Ids(Views(s, wallet, all[k..]))
  {
    hide ViewOf;
    forall n | k <= n < |all|
      ensures all[n].txid in Ids(Views(s, wallet, all[k..]))
    {
      assert Ids(Views(s, wallet, all[k..]))[n - k] == all[n].txid;
    }
  }

  lemma AboveIsOutside(s: Server, wallet: seq<Address>, all: seq<HistoryItem>, k: nat, j: nat, m: nat,
                       i: BalanceInput)
    requires DistinctTxids(all) && m < k <= j < |all| && SpendsRow(s, wallet, all, j, m, i)
    ensures InputFromOutside(Views(s, wallet, all[k..]), i)
  {
    hide ViewOf, Inputs;
    var views := Views(s, wallet, all[k..]);
    assert i in views[j - k].inputs;
    InputsMember(views, |views|, i);
    assert forall n :: 0 <= n < |views| ==> Ids(views)[n] == all[k + n].txid;
  }

  /** No row from k down spends, with a value, a wallet coin of a row above k. */
  ghost predicate NothingFromAbove(s: Server, wallet: seq<Address>, all: seq<HistoryItem>, k: nat) {
    forall j, m, i: BalanceInput ::
      0 <= m < k <= j < |all| && i.address in wallet && SpendsRow(s, wallet, all, j, m, i) ==> i.value == 0
  }

  /** The condition of RowExact, row by row and input by input. */
  lemma RowCondition(s: Server, wallet: seq<Address>, all: seq<HistoryItem>, k: nat)
    requires LedgerOk(s, wallet) && Merged(s, wallet, all) && k <= |all|
    ensures RowOutside(s, wallet, all, k) == 0 <==> NothingFromAbove(s, wallet, all, k)
  {
    hide LedgerOk, ViewOf, SpendsRow, InputFromOutside, DistinctTxids;
    var views := Views(s, wallet, all[k..]);
    NothingOutsideOfAllExactly(wallet, |wallet|, views);
    assert wallet[..|wallet|] == wallet;
    forall i: BalanceInput | i.address in wallet && InputFromOutside(views, i) && NothingFromAbove(s, wallet, all, k)
      ensures i.value == 0
    {
      var j, m := OutsideIsAbove(s, wallet, all, k, i);
    }
    forall j, m, i: BalanceInput | 0 <= m < k <= j < |all| && i.address in wallet && SpendsRow(s, wallet, all, j, m, i)
      ensures InputFromOutside(views, i)
    {
      AboveIsOutside(s, wallet, all, k, j, m, i);
    }
  }

  /** x spends, with a value, a wallet coin of y. */
  ghost predicate SpendsValueOf(s: Server, wallet: seq<Address>, x: HistoryItem, y: HistoryItem) {
    exists i :: i in ViewOf(s, wallet, x.txid).inputs && i.address in wallet && i.fundingTx == y.txid && i.value > 0
  }

  lemma ValueSpent(s: Server, wallet: seq<Address>, x: HistoryItem, y: HistoryItem, i: BalanceInput)
    requires i in ViewOf(s, wallet, x.txid).inputs && i.address in wallet && i.fundingTx == y.txid
    ensures i.value > 0 ==> SpendsValueOf(s, wallet, x, y)
  {
  }

  /** No transaction spends, with a value, a wallet coin of one that stands above it: one at height 0 if it is not
      itself, a higher one, or one at the same height with a greater id. */
  ghost predicate SpendersFirst(s: Server, wallet: seq<Address>, all: seq<HistoryItem>) {
    forall x, y :: x in all && y in all && SpendsValueOf(s, wallet, x, y) ==> !Above(y, x)
  }

  /** Heights as a chain gives them: a funder is confirmed no later than its spender, what is at 0 has confirmed
      funders only, and what is below 0 is at -1. */
  ghost predicate HeightsOnChain(s: Server, wallet: seq<Address>, all: seq<HistoryItem>) {
    && (forall x :: x in all ==> x.height >= -1)
    && forall x, y :: x in all && y in all && SpendsValueOf(s, wallet, x, y) ==>
         && (x.height > 0 ==> 0 < y.height <= x.height)
         && (x.height == 0 ==> y.height > 0)
  }

  /** Then the condition is that no spender is at its funder's height with a lower id, and none at -1 whose funder is
      not. */
  lemma SpendersFirstOnChain(s: Server, wallet: seq<Address>, all: seq<HistoryItem>)
    requires HeightsOnChain(s, wallet, all)
    ensures SpendersFirst(s, wallet, all)
       <==> forall x, y :: x in all && y in all && SpendsValueOf(s, wallet, x, y) ==>
              && !(x.height == y.height && GreaterId(y.txid, x.txid))
              && !(x.height == -1 && y.height != -1)
  {
    hide SpendsValueOf, GreaterId;
  }

  /** In a sorted history the rows above are those that sort before. */
  lemma AboveIsBefore(all: seq<HistoryItem>, j: nat, m: nat)
    requires Sorted(all) && DistinctTxids(all) && j < |all| && m < |all|
    ensures m < j <==> Before(all[m], all[j])
  {
    BeforeLaws(all[m], all[j], all[m]);
    if j < m {
      assert !Before(all[m], all[j]);
    }
  }

  lemma SpendersFirstThenNothingFromAbove(s: Server, wallet: seq<Address>, all: seq<HistoryItem>, k: nat)
    requires Sorted(all) && DistinctTxids(all) && SpendersFirst(s, wallet, all)
    ensures NothingFromAbove(s, wallet, all, k)
  {
    hide ViewOf, Before, Above, Sorted, DistinctTxids;
    forall j, m, i: BalanceInput | 0 <= m < k <= j < |all| && i.address in wallet && SpendsRow(s, wallet, all, j, m, i)
      ensures i.value == 0
    {
      AboveIsBefore(all, j, m);
      BeforeMeans(all[m], all[j]);
      assert all[j] in all && all[m] in all;
      ValueSpent(s, wallet, all[j], all[m], i);
    }
  }

  lemma NothingFromAboveThenSpendersFirst(s: Server, wallet: seq<Address>, all: seq<HistoryItem>, x: HistoryItem,
                                          y: HistoryItem, i: BalanceInput)
    requires Sorted(all) && DistinctTxids(all)
    requires forall k :: 0 <= k <= |all| ==> NothingFromAbove(s, wallet, all, k)
    requires x in all && y in all && i in ViewOf(s, wallet, x.txid).inputs
    requires i.address in wallet && i.fundingTx == y.txid
    ensures Above(y, x) ==> i.value == 0
  {
    hide ViewOf, Before, Above, Sorted, DistinctTxids;
    var j :| 0 <= j < |all| && all[j] == x;
    var m :| 0 <= m < |all| && all[m] == y;
    AboveIsBefore(all, j, m);
    BeforeMeans(y, x);
    assert NothingFromAbove(s, wallet, all, j) && SpendsRow(s, wallet, all, j, m, i);
  }

  lemma FromAboveExactly(s: Server, wallet: seq<Address>, all: seq<HistoryItem>)
    requires Sorted(all) && DistinctTxids(all)
    ensures (forall k :: 0 <= k <= |all| ==> NothingFromAbove(s, wallet, all, k)) <==> SpendersFirst(s, wallet, all)
  {
    hide ViewOf, Before, Above, Sorted, DistinctTxids, NothingFromAbove;
    if SpendersFirst(s, wallet, all) {
      forall k | 0 <= k <= |all|
        ensures NothingFromAbove(s, wallet, all, k)
      {
        SpendersFirstThenNothingFromAbove(s, wallet, all, k);
      }
    }
    if forall k :: 0 <= k <= |all| ==> NothingFromAbove(s, wallet, all, k) {
      forall x, y | x in all && y in all && SpendsValueOf(s, wallet, x, y)
        ensures !Above(y, x)
      {
        var i :| i in ViewOf(s, wallet, x.txid).inputs && i.address in wallet && i.fundingTx == y.txid && i.value > 0;
        NothingFromAboveThenSpendersFirst(s, wallet, all, x, y, i);
      }
    }
  }

  /** Every row of the view shows the exact UTXO value if and only if spenders sort before their funders. */
  lemma AllRowsExact(s: Server, wallet: seq<Address>, all: seq<HistoryItem>)
    requires LedgerOk(s, wallet) && IsWalletHistory(s, wallet, all)
    requires Received(Views(s, wallet, all), |all|) < TWO_63
    ensures (forall k :: 0 <= k <= |all| ==> Wrap(SuffixSum(s, wallet, all, k)) == RowUtxoValue(s, wallet, all, k))
       <==> SpendersFirst(s, wallet, all)
  {
    hide LedgerOk, ViewOf, SpendersFirst, Sorted, Received, SuffixSum, RowUtxoValue, NothingFromAbove;
    FromAboveExactly(s, wallet, all);
    forall k | 0 <= k <= |all|
      ensures Wrap(SuffixSum(s, wallet, all, k)) == RowUtxoValue(s, wallet, all, k)
         <==> NothingFromAbove(s, wallet, all, k)
    {
      RowExact(s, wallet, all, k);
      RowCondition(s, wallet, all, k);
    }
  }
}

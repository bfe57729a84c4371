/** The wallet's two balances agree, on every well-formed ledger. */
module WalletBalances {
  import opened Wrappers
  import opened MachineIntegers
  import opened Sequences
  import opened Ledger
  import opened WalletServer
  import opened WalletLedger
  import opened HistoryOrder

  // ---------- the well-formed ledger, as the servers show it ----------

  ghost predicate Listed(s: Server, wallet: seq<Address>, txid: TxId) {
    exists a :: a in wallet && txid in Txids(s.histories(a))
  }

  /** Histories are complete: they list whatever pays the address, and whatever listed transaction draws on it. */
  ghost predicate Complete(s: Server, wallet: seq<Address>) {
    && (forall a, txid, o ::
          a in wallet && FetchTx(s, txid).Success? && o in FetchTx(s, txid).value.outputs && o.address == a
          ==> txid in Txids(s.histories(a)))
    && (forall a, txid, i ::
          a in wallet && Listed(s, wallet, txid) && i in ViewOf(s, wallet, txid).inputs && i.address == a
          ==> txid in Txids(s.histories(a)))
  }

  /** No two inputs of listed transactions spend the same outpoint. */
  ghost predicate NoDoubleSpend(s: Server, wallet: seq<Address>) {
    forall t, u, p, q ::
      && Listed(s, wallet, t) && Listed(s, wallet, u)
      && 0 <= p < |ViewOf(s, wallet, t).inputs| && 0 <= q < |ViewOf(s, wallet, u).inputs|
      && SpendsCoin(ViewOf(s, wallet, t).inputs[p],
                    ViewOf(s, wallet, u).inputs[q].fundingTx, ViewOf(s, wallet, u).inputs[q].fundingIdx)
      ==> t == u && p == q
  }

  /** Each address's history lists a transaction once. */
  ghost predicate HistoriesDistinct(s: Server, wallet: seq<Address>) {
    forall a :: a in wallet ==> DistinctTxids(s.histories(a))
  }

  /** Each address's history lists funders before spenders, as the scan asks for. */
  ghost predicate HistoriesOrdered(s: Server, wallet: seq<Address>) {
    forall a :: a in wallet ==> Ordered(Views(s, wallet, s.histories(a)))
  }

  /** The same as far as it matters for the balances: nothing of value is listed as spent before it is paid. */
  ghost predicate HistoriesInOrder(s: Server, wallet: seq<Address>) {
    forall a :: a in wallet ==> InOrder(a, Views(s, wallet, s.histories(a)))
  }

  /** The well-formed ledger; in what order the histories list it is left open. */
  ghost predicate LedgerOk(s: Server, wallet: seq<Address>) {
    && DistinctAddresses(wallet)
    && Healthy(s, wallet) && OneHeight(s, wallet)
    && Complete(s, wallet) && NoDoubleSpend(s, wallet) && HistoriesDistinct(s, wallet)
  }

  /** A list of listed transactions, each once. */
  ghost predicate ListedOnce(s: Server, wallet: seq<Address>, items: seq<HistoryItem>) {
    DistinctTxids(items) && forall x :: x in items ==> Listed(s, wallet, x.txid) && Viewable(s, wallet, x.txid)
  }

  lemma HistoryListedOnce(s: Server, wallet: seq<Address>, a: Address)
    requires LedgerOk(s, wallet) && a in wallet
    ensures ListedOnce(s, wallet, s.histories(a))
  {
  }

  lemma MergedListedOnce(s: Server, wallet: seq<Address>, items: seq<HistoryItem>)
    requires LedgerOk(s, wallet) && Merged(s, wallet, items)
    ensures ListedOnce(s, wallet, items)
  {
  }

  // ---------- what follows for the views ----------

  lemma ViewsCarried(s: Server, wallet: seq<Address>, items: seq<HistoryItem>)
    requires forall x :: x in items ==> Viewable(s, wallet, x.txid)
    ensures Carried(Views(s, wallet, items))
  {
  }

  lemma ViewsFlagged(s: Server, wallet: seq<Address>, items: seq<HistoryItem>)
    requires DistinctAddresses(wallet)
    requires forall x :: x in items ==> Viewable(s, wallet, x.txid)
    ensures forall t :: t in Views(s, wallet, items) ==> FlagsTrue(wallet, t)
  {
  }

  lemma ViewsDistinct(s: Server, wallet: seq<Address>, items: seq<HistoryItem>)
    requires DistinctTxids(items)
    ensures DistinctIds(Views(s, wallet, items))
  {
  }

  predicate Disjoint(a: seq<BalanceInput>, b: seq<BalanceInput>) {
    forall p, q :: 0 <= p < |a| && 0 <= q < |b| ==> !SpendsCoin(a[p], b[q].fundingTx, b[q].fundingIdx)
  }

  lemma SpentOnceAppend(a: seq<BalanceInput>, b: seq<BalanceInput>)
    requires SpentOnce(a) && SpentOnce(b) && Disjoint(a, b)
    ensures SpentOnce(a + b)
  {
  }

  /** What earlier transactions of the list spend, a later one does not. */
  lemma EarlierInputsDisjoint(s: Server, wallet: seq<Address>, items: seq<HistoryItem>, n: nat)
    requires NoDoubleSpend(s, wallet) && ListedOnce(s, wallet, items) && n < |items|
    ensures Disjoint(Inputs(Views(s, wallet, items), n), ViewOf(s, wallet, items[n].txid).inputs)
  {
    hide ViewOf;
    var views := Views(s, wallet, items);
    var before, last := Inputs(views, n), ViewOf(s, wallet, items[n].txid).inputs;
    forall p, q | 0 <= p < |before| && 0 <= q < |last|
      ensures !SpendsCoin(before[p], last[q].fundingTx, last[q].fundingIdx)
    {
      InputsMember(views, n, before[p]);
      var k :| 0 <= k < n && before[p] in views[k].inputs;
      var p' :| 0 <= p' < |views[k].inputs| && views[k].inputs[p'] == before[p];
      assert items[k] in items && items[n] in items;
    }
  }

  lemma SpendsDistinctCoins(s: Server, wallet: seq<Address>, txid: TxId)
    requires NoDoubleSpend(s, wallet) && Listed(s, wallet, txid)
    ensures SpentOnce(ViewOf(s, wallet, txid).inputs)
  {
  }

  /** Each flat input comes from one place in one transaction, so no outpoint is spent twice in the flat list either. */
  lemma {:induction false} ViewsSpendOnce(s: Server, wallet: seq<Address>, items: seq<HistoryItem>, n: nat)
    requires NoDoubleSpend(s, wallet) && ListedOnce(s, wallet, items) && n <= |items|
    ensures SpentOnce(Inputs(Views(s, wallet, items), n))
  {
    hide ViewOf, Views, Disjoint, NoDoubleSpend, SpentOnce, Listed, Viewable, DistinctTxids;
    var views := Views(s, wallet, items);
    if n == 0 {
      NothingSpent();
    } else {
      ViewsSpendOnce(s, wallet, items, n - 1);
      EarlierInputsDisjoint(s, wallet, items, n - 1);
      assert items[n - 1] in items;
      SpendsDistinctCoins(s, wallet, items[n - 1].txid);
      SpentOnceAppend(Inputs(views, n - 1), views[n - 1].inputs);
    }
  }

  lemma NothingSpent()
    ensures SpentOnce([])
  {
  }

  /** The views of a list of listed transactions behave, whatever its order. */
  ghost predicate Behaved(wallet: seq<Address>, views: seq<TxBalance>) {
    && DistinctIds(views) && Carried(views) && SpentOnce(Inputs(views, |views|))
    && forall t :: t in views ==> FlagsTrue(wallet, t)
  }

  lemma ViewsBehave(s: Server, wallet: seq<Address>, items: seq<HistoryItem>)
    requires LedgerOk(s, wallet) && ListedOnce(s, wallet, items)
    ensures Behaved(wallet, Views(s, wallet, items))
  {
    ViewsDistinct(s, wallet, items);
    ViewsCarried(s, wallet, items);
    ViewsSpendOnce(s, wallet, items, |items|);
    ViewsFlagged(s, wallet, items);
  }

  /** The output that an input of a viewable transaction spends. */
  lemma InputSource(s: Server, wallet: seq<Address>, txid: TxId, i: BalanceInput)
    requires Viewable(s, wallet, txid) && i in ViewOf(s, wallet, txid).inputs
    ensures FetchTx(s, i.fundingTx).Success?
    ensures exists o :: o in FetchTx(s, i.fundingTx).value.outputs && o.address == i.address
  {
    hide FetchTx, ViewOutputs;
    var inputs := ViewOf(s, wallet, txid).inputs;
    var p :| 0 <= p < |inputs| && inputs[p] == i;
    assert ViewInput(s, wallet, FetchTx(s, txid).value.inputs[p]) == Success(i);
    assert FetchTx(s, i.fundingTx).value.outputs[i.fundingIdx] in FetchTx(s, i.fundingTx).value.outputs;
  }

  /** A complete history funds every input from its address. */
  lemma HistoryFunded(s: Server, wallet: seq<Address>, a: Address)
    requires LedgerOk(s, wallet) && a in wallet
    ensures FundedWithin(a, Views(s, wallet, s.histories(a)))
  {
    hide ViewOf, FetchTx, Viewable, NoDoubleSpend, OneHeight;
    var items := s.histories(a);
    var views := Views(s, wallet, items);
    forall j, i | 0 <= j < |views| && i in views[j].inputs && i.address == a
      ensures i.fundingTx in Ids(views)
    {
      assert items[j] in items;
      InputSource(s, wallet, items[j].txid, i);
      assert i.fundingTx in Txids(items);
      assert Txids(items) == Ids(views);
    }
  }

  lemma HistoryWellFormed(s: Server, wallet: seq<Address>, a: Address)
    requires LedgerOk(s, wallet) && a in wallet
    ensures WellFormed(a, Views(s, wallet, s.histories(a)))
  {
    var items := s.histories(a);
    HistoryListedOnce(s, wallet, a);
    ViewsDistinct(s, wallet, items);
    ViewsCarried(s, wallet, items);
    HistoryFunded(s, wallet, a);
    ViewsSpendOnce(s, wallet, items, |items|);
  }

  // ---------- by address against by transaction ----------

  /** What calculate_total_balance sums: the scans of the first n addresses. */
  function TotalScan(s: Server, wallet: seq<Address>, n: nat): int
    requires n <= |wallet|
  {
    if n == 0 then 0
    else
      var a := wallet[n - 1];
      TotalScan(s, wallet, n - 1) + Scan(a, Views(s, wallet, s.histories(a)), |s.histories(a)|)
  }

  /** The value of the wallet in the UTXO sets of its addresses. */
  function TotalUtxoValue(s: Server, wallet: seq<Address>, n: nat): nat
    requires n <= |wallet|
  {
    if n == 0 then 0
    else
      var a := wallet[n - 1];
      TotalUtxoValue(s, wallet, n - 1) + ValueOf(a, Replay(Views(s, wallet, s.histories(a)), |s.histories(a)|))
  }

  /** The value of the coins that each address's history creates for it and does not spend, whatever its order. */
  function TotalUnspent(s: Server, wallet: seq<Address>, n: nat): nat
    requires n <= |wallet|
  {
    if n == 0 then 0
    else
      TotalUnspent(s, wallet, n - 1) + UnspentValue(wallet[n - 1], Views(s, wallet, s.histories(wallet[n - 1])))
  }

  /** What the scans miss because a spender is listed at or before its funder. */
  function TotalMissed(s: Server, wallet: seq<Address>, n: nat): nat
    requires n <= |wallet|
  {
    if n == 0 then 0
    else
      var a := wallet[n - 1];
      TotalMissed(s, wallet, n - 1) + Missed(a, Views(s, wallet, s.histories(a)), |s.histories(a)|)
  }

  /** What a transaction pays to an address, as a function of its id. */
  function Payment(s: Server, wallet: seq<Address>, a: Address): TxId -> int {
    txid => var t := ViewOf(s, wallet, txid); ValueOf(a, CoinsOf(t, |t.outputs|))
  }

  lemma {:induction false} PaidIsSumOver(s: Server, wallet: seq<Address>, a: Address, items: seq<HistoryItem>, n: nat)
    requires n <= |items|
    ensures ValueOf(a, Coins(Views(s, wallet, items), n)) == SumOver(Payment(s, wallet, a), Txids(items)[..n])
  {
    hide ViewOf, CoinsOf, Views;
    if n > 0 {
      var t := Views(s, wallet, items)[n - 1];
      PaidIsSumOver(s, wallet, a, items, n - 1);
      assert t == ViewOf(s, wallet, items[n - 1].txid);
      assert Txids(items)[..n][..n - 1] == Txids(items)[..n - 1];
      ValueOfAppend(a, Coins(Views(s, wallet, items), n - 1), CoinsOf(t, |t.outputs|));
    }
  }

  /** What a transaction changes at an address, as a function of its id. */
  function Effect(s: Server, wallet: seq<Address>, a: Address): TxId -> int {
    txid => TxNet(a, ViewOf(s, wallet, txid))
  }

  lemma {:induction false} NetIsSumOver(s: Server, wallet: seq<Address>, a: Address, items: seq<HistoryItem>, n: nat)
    requires n <= |items|
    ensures Net(a, Views(s, wallet, items), n) == SumOver(Effect(s, wallet, a), Txids(items)[..n])
  {
    hide ViewOf, TxNet;
    if n > 0 {
      NetIsSumOver(s, wallet, a, items, n - 1);
      assert Txids(items)[..n][..n - 1] == Txids(items)[..n - 1];
    }
  }

  lemma {:induction false} NothingPaid(a: Address, coins: seq<Coin>)
    requires forall c :: c in coins ==> c.address != a
    ensures ValueOf(a, coins) == 0
  {
    if coins != [] {
      assert coins[|coins| - 1] in coins;
      NothingPaid(a, coins[..|coins| - 1]);
    }
  }

  lemma {:induction false} NothingDrawn(a: Address, inputs: seq<BalanceInput>)
    requires forall i :: i in inputs ==> i.address != a
    ensures Drawn(a, inputs) == 0
  {
    if inputs != [] {
      assert inputs[|inputs| - 1] in inputs;
      NothingDrawn(a, inputs[..|inputs| - 1]);
    }
  }

  /** A listed transaction that is not in an address's history does nothing at the address. */
  lemma UnlistedHasNoEffect(s: Server, wallet: seq<Address>, a: Address, txid: TxId)
    requires LedgerOk(s, wallet) && a in wallet && Listed(s, wallet, txid) && Viewable(s, wallet, txid)
    requires txid !in Txids(s.histories(a))
    ensures Effect(s, wallet, a)(txid) == 0 && Payment(s, wallet, a)(txid) == 0
  {
    var t := ViewOf(s, wallet, txid);
    var tx := FetchTx(s, txid).value;
    forall c | c in CoinsOf(t, |t.outputs|)
      ensures c.address != a
    {
      assert tx.outputs[c.idx] in tx.outputs;
      assert c.address == tx.outputs[c.idx].address;
    }
    NothingPaid(a, CoinsOf(t, |t.outputs|));
    NothingDrawn(a, t.inputs);
  }

  /** An address's history is part of the merged one, and the rest does nothing at the address. */
  lemma RestHasNoEffect(s: Server, wallet: seq<Address>, a: Address, all: seq<HistoryItem>)
    requires LedgerOk(s, wallet) && Merged(s, wallet, all) && a in wallet
    ensures forall x :: x in Txids(s.histories(a)) ==> x in Txids(all)
    ensures forall x :: x in Txids(all) && x !in Txids(s.histories(a)) ==>
                          Effect(s, wallet, a)(x) == 0 && Payment(s, wallet, a)(x) == 0
  {
    hide LedgerOk, Listed, Viewable, Effect, Payment;
    var own := s.histories(a);
    MergedListedOnce(s, wallet, all);
    forall x | x in Txids(own)
      ensures x in Txids(all)
    {
      var k :| 0 <= k < |own| && Txids(own)[k] == x;
      assert own[k] in own;
    }
    forall x | x in Txids(all) && x !in Txids(own)
      ensures Effect(s, wallet, a)(x) == 0 && Payment(s, wallet, a)(x) == 0
    {
      var k :| 0 <= k < |all| && Txids(all)[k] == x;
      assert all[k] in all;
      UnlistedHasNoEffect(s, wallet, a, x);
    }
  }

  lemma TxidsDistinct(items: seq<HistoryItem>)
    requires DistinctTxids(items)
    ensures Distinct(Txids(items))
  {
  }

  /** A function of the transactions that is 0 off the address's history sums up alike over it and over the whole. */
  lemma SameOverHistory(s: Server, wallet: seq<Address>, a: Address, all: seq<HistoryItem>, f: TxId -> int)
    requires LedgerOk(s, wallet) && Merged(s, wallet, all) && a in wallet
    requires forall x :: x in Txids(s.histories(a)) ==> x in Txids(all)
    requires forall x :: x in Txids(all) && x !in Txids(s.histories(a)) ==> f(x) == 0
    ensures SumOver(f, Txids(s.histories(a))) == SumOver(f, Txids(all))
  {
    hide LedgerOk, Distinct, DistinctTxids;
    HistoryListedOnce(s, wallet, a);
    TxidsDistinct(s.histories(a));
    TxidsDistinct(all);
    SumOverPart(f, Txids(s.histories(a)), Txids(all));
  }

  /** An address's own history and the whole wallet's pay it the same and give the same signed sum. */
  lemma NetOfHistory(s: Server, wallet: seq<Address>, a: Address, all: seq<HistoryItem>)
    requires LedgerOk(s, wallet) && Merged(s, wallet, all) && a in wallet
    ensures var own, whole := Views(s, wallet, s.histories(a)), Views(s, wallet, all);
            && Net(a, own, |own|) == Net(a, whole, |whole|)
            && ValueOf(a, Coins(own, |own|)) == ValueOf(a, Coins(whole, |whole|))
  {
    hide LedgerOk, Merged, Effect, Payment, ViewOf;
    var own := s.histories(a);
    NetIsSumOver(s, wallet, a, own, |own|);
    NetIsSumOver(s, wallet, a, all, |all|);
    PaidIsSumOver(s, wallet, a, own, |own|);
    PaidIsSumOver(s, wallet, a, all, |all|);
    assert Txids(own)[..|own|] == Txids(own) && Txids(all)[..|all|] == Txids(all);
    RestHasNoEffect(s, wallet, a, all);
    SameOverHistory(s, wallet, a, all, Effect(s, wallet, a));
    SameOverHistory(s, wallet, a, all, Payment(s, wallet, a));
  }

  /** One address: its scan, its unspent value and what it was paid. */
  lemma HistoryCompared(s: Server, wallet: seq<Address>, all: seq<HistoryItem>, a: Address)
    requires LedgerOk(s, wallet) && Merged(s, wallet, all) && a in wallet
    ensures var own, whole := Views(s, wallet, s.histories(a)), Views(s, wallet, all);
            && Scan(a, own, |own|) == UnspentValue(a, own) + Missed(a, own, |own|)
            && UnspentValue(a, own) == Net(a, whole, |whole|)
            && Scan(a, own, |own|) <= ValueOf(a, Coins(whole, |whole|))
            && (Missed(a, own, |own|) == 0 <==> InOrder(a, own))
            && (Ordered(own) ==> InOrder(a, own) && UnspentValue(a, own) == ValueOf(a, Replay(own, |own|)))
  {
    hide LedgerOk, Merged, ViewOf, InOrder, FundedWithin, SpentOnce, DistinctIds;
    var own := Views(s, wallet, s.histories(a));
    HistoryWellFormed(s, wallet, a);
    ScanIsUnspentAndMissed(a, own);
    ScanWithinPaid(a, own, |own|);
    NothingMissed(a, own);
    NetOfHistory(s, wallet, a, all);
    if Ordered(own) {
      ReplayIsUnspent(own, |own|);
    }
  }

  lemma {:induction false} TotalsCompared(s: Server, wallet: seq<Address>, all: seq<HistoryItem>, n: nat)
    requires LedgerOk(s, wallet) && Merged(s, wallet, all) && n <= |wallet|
    ensures TotalScan(s, wallet, n) == TotalUnspent(s, wallet, n) + TotalMissed(s, wallet, n)
    ensures TotalUnspent(s, wallet, n) == NetOfAll(wallet, n, Views(s, wallet, all))
    ensures TotalScan(s, wallet, n) <= PaidOver(wallet, n, Coins(Views(s, wallet, all), |all|))
    ensures TotalMissed(s, wallet, n) == 0
       <==> forall k :: 0 <= k < n ==> InOrder(wallet[k], Views(s, wallet, s.histories(wallet[k])))
    ensures HistoriesOrdered(s, wallet) ==> TotalUnspent(s, wallet, n) == TotalUtxoValue(s, wallet, n)
  {
    hide LedgerOk, Merged, ViewOf, InOrder, Scan, Missed, UnspentValue, Net, Ordered, Replay, Coins;
    if n > 0 {
      TotalsCompared(s, wallet, all, n - 1);
      assert wallet[n - 1] in wallet;
      HistoryCompared(s, wallet, all, wallet[n - 1]);
    }
  }

  /**
    * The double-counting theorem, for histories in any order: the sum over distinct transactions of signed deltas is
    * the wallet's unspent value, and the sum over addresses of scans exceeds it by what the scans miss. They agree if
    * and only if no history lists something of value as spent before it is paid.
    */
  lemma BalancesCompared(s: Server, wallet: seq<Address>, all: seq<HistoryItem>)
    requires LedgerOk(s, wallet) && Merged(s, wallet, all)
    ensures Deltas(Views(s, wallet, all), |all|) == TotalUnspent(s, wallet, |wallet|)
    ensures TotalScan(s, wallet, |wallet|) == TotalUnspent(s, wallet, |wallet|) + TotalMissed(s, wallet, |wallet|)
    ensures TotalMissed(s, wallet, |wallet|) == 0 <==> HistoriesInOrder(s, wallet)
  {
    hide InOrder, NoDoubleSpend, Complete, Healthy, OneHeight, ViewOf;
    DeltasAreNet(s, wallet, all);
    TotalsCompared(s, wallet, all, |wallet|);
  }

  lemma DeltasAreNet(s: Server, wallet: seq<Address>, all: seq<HistoryItem>)
    requires LedgerOk(s, wallet) && Merged(s, wallet, all)
    ensures Deltas(Views(s, wallet, all), |all|) == NetOfAll(wallet, |wallet|, Views(s, wallet, all))
  {
    MergedListedOnce(s, wallet, all);
    ViewsFlagged(s, wallet, all);
    DeltasByAddress(wallet, Views(s, wallet, all), |all|);
    assert Views(s, wallet, all)[..|all|] == Views(s, wallet, all);
  }

  /** With funders listed before spenders, all three are the value of the wallet in its UTXO set. */
  lemma BalancesAgree(s: Server, wallet: seq<Address>, all: seq<HistoryItem>)
    requires LedgerOk(s, wallet) && HistoriesOrdered(s, wallet) && Merged(s, wallet, all)
    ensures TotalScan(s, wallet, |wallet|) == Deltas(Views(s, wallet, all), |all|)
    ensures TotalScan(s, wallet, |wallet|) == TotalUtxoValue(s, wallet, |wallet|)
  {
    hide LedgerOk, Merged, HistoriesOrdered;
    BalancesCompared(s, wallet, all);
    TotalsCompared(s, wallet, all, |wallet|);
    OrderedInOrder(s, wallet);
  }

  lemma OrderedInOrder(s: Server, wallet: seq<Address>)
    requires LedgerOk(s, wallet) && HistoriesOrdered(s, wallet)
    ensures HistoriesInOrder(s, wallet)
  {
    hide LedgerOk, InOrder;
    forall a | a in wallet
      ensures InOrder(a, Views(s, wallet, s.histories(a)))
    {
      HistoryWellFormed(s, wallet, a);
      NothingMissed(a, Views(s, wallet, s.histories(a)));
    }
  }

  lemma {:induction false} TotalOrdered(s: Server, wallet: seq<Address>, n: nat)
    requires LedgerOk(s, wallet) && HistoriesOrdered(s, wallet) && n <= |wallet|
    ensures TotalScan(s, wallet, n) == TotalUnspent(s, wallet, n)
  {
    hide LedgerOk, WellFormed, ViewOf, Scan, Missed, UnspentValue, Ordered;
    if n > 0 {
      var a := wallet[n - 1];
      TotalOrdered(s, wallet, n - 1);
      HistoryWellFormed(s, wallet, a);
      ScanOrdered(a, Views(s, wallet, s.histories(a)));
    }
  }

  lemma ScanOrdered(a: Address, items: seq<TxBalance>)
    requires WellFormed(a, items) && Ordered(items)
    ensures Scan(a, items, |items|) == UnspentValue(a, items)
  {
    NothingMissed(a, items);
    ScanIsUnspentAndMissed(a, items);
  }

  // ---------- the unconfirmed part of an address's history ----------

  /** What calculate_address_balance looks at of the first n items: all, or those at height 0 or below. */
  function Selected(items: seq<HistoryItem>, n: nat, unconfirmedOnly: bool): (r: seq<HistoryItem>)
    requires n <= |items|
  {
    if n == 0 then []
    else Selected(items, n - 1, unconfirmedOnly) +
         if !unconfirmedOnly || items[n - 1].height <= 0 then [items[n - 1]] else []
  }

  lemma {:induction false} SelectedMembers(items: seq<HistoryItem>, n: nat, unconfirmedOnly: bool)
    requires n <= |items|
    ensures forall x :: x in Selected(items, n, unconfirmedOnly) <==>
                        x in items[..n] && (!unconfirmedOnly || x.height <= 0)
  {
    if n > 0 {
      assert items[..n] == items[..n - 1] + [items[n - 1]];
      SelectedMembers(items, n - 1, unconfirmedOnly);
    }
  }

  lemma {:induction false} SelectedAll(items: seq<HistoryItem>, n: nat)
    requires n <= |items|
    ensures Selected(items, n, false) == items[..n]
  {
    if n > 0 {
      SelectedAll(items, n - 1);
    }
  }

  /** The scan of an address over what is looked at. */
  function ScanOf(s: Server, wallet: seq<Address>, a: Address, unconfirmedOnly: bool): int {
    var items := Selected(s.histories(a), |s.histories(a)|, unconfirmedOnly);
    Scan(a, Views(s, wallet, items), |items|)
  }

  function TotalScanOf(s: Server, wallet: seq<Address>, n: nat, unconfirmedOnly: bool): int
    requires n <= |wallet|
  {
    if n == 0 then 0
    else TotalScanOf(s, wallet, n - 1, unconfirmedOnly) + ScanOf(s, wallet, wallet[n - 1], unconfirmedOnly)
  }

  lemma {:induction false} TotalScanOfAll(s: Server, wallet: seq<Address>, n: nat)
    requires n <= |wallet|
    ensures TotalScanOf(s, wallet, n, false) == TotalScan(s, wallet, n)
  {
    hide Views, Scan;
    if n > 0 {
      var items := s.histories(wallet[n - 1]);
      TotalScanOfAll(s, wallet, n - 1);
      SelectedAll(items, |items|);
      assert items[..|items|] == items;
    }
  }

  lemma OrderedOneMore(views: seq<TxBalance>, t: TxBalance)
    requires Ordered(views) && forall i :: i in t.inputs ==> i.fundingTx != t.txId
    requires forall u, i :: u in views && i in u.inputs ==> i.fundingTx != t.txId
    ensures Ordered(views + [t])
  {
  }

  /** What is selected before an item neither is it nor spends from it. */
  lemma SelectedEarlier(s: Server, wallet: seq<Address>, items: seq<HistoryItem>, n: nat, unconfirmedOnly: bool)
    requires n < |items| && DistinctTxids(items) && Ordered(Views(s, wallet, items))
    ensures forall x :: x in Selected(items, n, unconfirmedOnly) ==> x.txid != items[n].txid
    ensures forall t, i :: t in Views(s, wallet, Selected(items, n, unconfirmedOnly)) && i in t.inputs ==>
              i.fundingTx != items[n].txid
  {
    hide ViewOf, Ordered;
    var front, views := Selected(items, n, unconfirmedOnly), Views(s, wallet, items);
    SelectedMembers(items, n, unconfirmedOnly);
    forall k | 0 <= k < |front|
      ensures front[k].txid != items[n].txid
      ensures forall i :: i in ViewOf(s, wallet, front[k].txid).inputs ==> i.fundingTx != items[n].txid
    {
      assert front[k] in front;
      var j :| 0 <= j < n && items[j] == front[k];
      assert views[j] == ViewOf(s, wallet, front[k].txid) && views[n].txId == items[n].txid;
      SpendsEarlier(views, j, n);
    }
  }

  /** A selection keeps the order and repeats nothing. */
  lemma {:induction false} SelectedOrdered(s: Server, wallet: seq<Address>, items: seq<HistoryItem>, n: nat,
                                           unconfirmedOnly: bool)
    requires n <= |items| && DistinctTxids(items) && Ordered(Views(s, wallet, items))
    ensures DistinctTxids(Selected(items, n, unconfirmedOnly))
    ensures Ordered(Views(s, wallet, Selected(items, n, unconfirmedOnly)))
  {
    hide ViewOf, Ordered, Views, DistinctTxids;
    if n == 0 {
      NothingSelected(s, wallet);
    } else {
      var front, last := Selected(items, n - 1, unconfirmedOnly), items[n - 1];
      SelectedOrdered(s, wallet, items, n - 1, unconfirmedOnly);
      if !unconfirmedOnly || last.height <= 0 {
        SelectedEarlier(s, wallet, items, n - 1, unconfirmedOnly);
        SpendsEarlier(Views(s, wallet, items), n - 1, n - 1);
        DistinctOneMore(front, last);
        OrderedOneMore(Views(s, wallet, front), ViewOf(s, wallet, last.txid));
        ViewsOneMore(s, wallet, front, last);
      } else {
        assert Selected(items, n, unconfirmedOnly) == front;
      }
    }
  }

  lemma NothingSelected(s: Server, wallet: seq<Address>)
    ensures DistinctTxids([]) && Ordered(Views(s, wallet, []))
  {
  }

  lemma DistinctOneMore(items: seq<HistoryItem>, x: HistoryItem)
    requires DistinctTxids(items) && forall y :: y in items ==> y.txid != x.txid
    ensures DistinctTxids(items + [x])
  {
  }

  lemma ViewsOneMore(s: Server, wallet: seq<Address>, items: seq<HistoryItem>, x: HistoryItem)
    ensures Views(s, wallet, items + [x]) == Views(s, wallet, items) + [ViewOf(s, wallet, x.txid)]
  {
    hide ViewOf;
  }

  lemma SpendsEarlier(views: seq<TxBalance>, j: nat, k: nat)
    requires Ordered(views) && j <= k < |views|
    ensures forall i :: i in views[j].inputs ==> i.fundingTx != views[k].txId
  {
  }

  /** What the unconfirmed balance of an address is: the value of the coins that the looked-at transactions create and
      do not spend themselves. Never negative; but spends of confirmed coins do not count against it. */
  lemma SelectedScanIsUtxoValue(s: Server, wallet: seq<Address>, a: Address, unconfirmedOnly: bool)
    requires LedgerOk(s, wallet) && HistoriesOrdered(s, wallet) && a in wallet
    ensures var items := Selected(s.histories(a), |s.histories(a)|, unconfirmedOnly);
            ScanOf(s, wallet, a, unconfirmedOnly) == ValueOf(a, Replay(Views(s, wallet, items), |items|))
  {
    hide ViewOf, Viewable, Listed, Healthy, OneHeight, Complete, NoDoubleSpend;
    var items := Selected(s.histories(a), |s.histories(a)|, unconfirmedOnly);
    var views := Views(s, wallet, items);
    HistoryListedOnce(s, wallet, a);
    SelectedMembers(s.histories(a), |s.histories(a)|, unconfirmedOnly);
    SelectedOrdered(s, wallet, s.histories(a), |s.histories(a)|, unconfirmedOnly);
    assert s.histories(a)[..|s.histories(a)|] == s.histories(a);
    ViewsBehave(s, wallet, items);
    ScanIsRemaining(a, views, |views|);
    NothingMissed(a, views);
    CarriedIsFair(views);
    RemainingIsUnspent(a, Coins(views, |views|), Inputs(views, |views|));
    ReplayIsUnspent(views, |views|);
  }

  // ---------- in machine arithmetic, split by height ----------

  /** The deltas of the first n items at height 0, or those not at height 0. */
  function DeltasAtZero(s: Server, wallet: seq<Address>, all: seq<HistoryItem>, n: nat, zero: bool): int
    requires n <= |all|
  {
    if n == 0 then 0
    else
      DeltasAtZero(s, wallet, all, n - 1, zero) +
      if (all[n - 1].height == 0) == zero then Delta(ViewOf(s, wallet, all[n - 1].txid)) else 0
  }

  lemma {:induction false} SplitByHeight(s: Server, wallet: seq<Address>, all: seq<HistoryItem>, n: nat)
    requires n <= |all|
    ensures DeltasAtZero(s, wallet, all, n, true) + DeltasAtZero(s, wallet, all, n, false)
         == Deltas(Views(s, wallet, all), n)
  {
    hide ViewOf, Delta;
    if n > 0 {
      SplitByHeight(s, wallet, all, n - 1);
    }
  }

  /** All that the wallet was ever paid. */
  function Received(items: seq<TxBalance>, n: nat): nat
    requires n <= |items|
  {
    if n == 0 then 0 else Received(items, n - 1) + OutputsInside(items[n - 1].outputs, |items[n - 1].outputs|)
  }

  function Spent(items: seq<TxBalance>, n: nat): nat
    requires n <= |items|
  {
    if n == 0 then 0 else Spent(items, n - 1) + InputsInside(items[n - 1].inputs, |items[n - 1].inputs|)
  }

  lemma {:induction false} ReceivedLessSpent(items: seq<TxBalance>, n: nat)
    requires n <= |items|
    ensures Deltas(items, n) == Received(items, n) - Spent(items, n)
  {
    if n > 0 {
      ReceivedLessSpent(items, n - 1);
    }
  }

  lemma {:induction false} PartialSums(s: Server, wallet: seq<Address>, all: seq<HistoryItem>, n: nat, zero: bool)
    requires n <= |all|
    ensures 0 - Spent(Views(s, wallet, all), n) <= DeltasAtZero(s, wallet, all, n, zero)
    ensures DeltasAtZero(s, wallet, all, n, zero) <= Received(Views(s, wallet, all), n)
  {
    hide ViewOf, OutputsInside, InputsInside, Views;
    if n > 0 {
      PartialSums(s, wallet, all, n - 1, zero);
      assert Views(s, wallet, all)[n - 1] == ViewOf(s, wallet, all[n - 1].txid);
    }
  }

  lemma {:induction false} SumsGrow(items: seq<TxBalance>, n: nat, m: nat)
    requires n <= m <= |items|
    ensures Received(items, n) <= Received(items, m) && Spent(items, n) <= Spent(items, m)
    decreases m
  {
    if n < m {
      SumsGrow(items, n, m - 1);
    }
  }

  // ---------- bounds ----------

  lemma {:induction false} UnspentWithinPaid(wallet: seq<Address>, n: nat, items: seq<TxBalance>)
    requires n <= |wallet| && Carried(items) && SpentOnce(Inputs(items, |items|))
    ensures UnspentOfAll(wallet, n, items) <= PaidOver(wallet, n, Coins(items, |items|))
  {
    if n > 0 {
      UnspentWithinPaid(wallet, n - 1, items);
      CarriedIsFair(items);
      RemainingIsUnspent(wallet[n - 1], Coins(items, |items|), Inputs(items, |items|));
    }
  }

  lemma {:induction false} PaidOverAppend(wallet: seq<Address>, n: nat, c: seq<Coin>, d: seq<Coin>)
    requires n <= |wallet|
    ensures PaidOver(wallet, n, c + d) == PaidOver(wallet, n, c) + PaidOver(wallet, n, d)
  {
    if n > 0 {
      PaidOverAppend(wallet, n - 1, c, d);
      ValueOfAppend(wallet[n - 1], c, d);
    }
  }

  lemma {:induction false} PaidIsReceived(wallet: seq<Address>, items: seq<TxBalance>, m: nat)
    requires DistinctAddresses(wallet) && m <= |items|
    requires forall t :: t in items ==> FlagsTrue(wallet, t)
    ensures PaidOver(wallet, |wallet|, Coins(items, m)) == Received(items, m)
  {
    if m == 0 {
      PaidOverNone(wallet, |wallet|);
    } else {
      var t := items[m - 1];
      PaidIsReceived(wallet, items, m - 1);
      assert t in items;
      PaidIsInside(wallet, t, |t.outputs|);
      PaidOverAppend(wallet, |wallet|, Coins(items, m - 1), CoinsOf(t, |t.outputs|));
    }
  }

  lemma UnspentWithinReceived(wallet: seq<Address>, items: seq<TxBalance>)
    requires DistinctAddresses(wallet) && Behaved(wallet, items)
    ensures UnspentOfAll(wallet, |wallet|, items) <= Received(items, |items|)
  {
    UnspentWithinPaid(wallet, |wallet|, items);
    PaidIsReceived(wallet, items, |items|);
  }

  /** No balance is more than what was received, and no more was spent. */
  lemma WithinReceived(s: Server, wallet: seq<Address>, all: seq<HistoryItem>)
    requires LedgerOk(s, wallet) && Merged(s, wallet, all)
    ensures 0 <= TotalScan(s, wallet, |wallet|) <= Received(Views(s, wallet, all), |all|)
    ensures Spent(Views(s, wallet, all), |all|) <= Received(Views(s, wallet, all), |all|)
  {
    hide ViewOf, Listed, Viewable, NoDoubleSpend, Complete, OneHeight, InOrder;
    var views := Views(s, wallet, all);
    MergedListedOnce(s, wallet, all);
    ViewsFlagged(s, wallet, all);
    PaidIsReceived(wallet, views, |all|);
    TotalsCompared(s, wallet, all, |wallet|);
    BalancesCompared(s, wallet, all);
    ReceivedLessSpent(views, |all|);
  }

  /**
    * Every partial sum of the signed folds stays in range, no int64_t overflow, and so does the total, if all the
    * wallet was ever paid is below 2^63.
    */
  lemma NoOverflow(s: Server, wallet: seq<Address>, all: seq<HistoryItem>, n: nat, zero: bool)
    requires LedgerOk(s, wallet) && Merged(s, wallet, all) && n <= |all|
    requires Received(Views(s, wallet, all), |all|) < TWO_63
    ensures -TWO_63 < DeltasAtZero(s, wallet, all, n, zero) < TWO_63
    ensures 0 <= TotalScan(s, wallet, |wallet|) < TWO_63
  {
    hide LedgerOk, Merged;
    var views := Views(s, wallet, all);
    WithinReceived(s, wallet, all);
    PartialSums(s, wallet, all, n, zero);
    SumsGrow(views, n, |all|);
  }

  lemma MachineSum(total: int, confirmed: int, impact: int, missed: int)
    requires total == confirmed + impact + missed
    ensures Wrap(total) == Wrap(Wrap(confirmed) + AsSigned(Wrap(impact)) + missed)
  {
    WrapAdd(confirmed, AsSigned(Wrap(impact)) + missed);
    WrapSigned(confirmed + missed, impact);
  }

  /** As the machine computes them, total == confirmed + unconfirmed impact, in wrapping uint64_t, up to what the scans
      miss, which is nothing if funders are listed before spenders. */
  lemma MachineBalancesAgree(s: Server, wallet: seq<Address>, all: seq<HistoryItem>)
    requires LedgerOk(s, wallet) && Merged(s, wallet, all)
    ensures Wrap(TotalScan(s, wallet, |wallet|))
         == Wrap(Wrap(DeltasAtZero(s, wallet, all, |all|, false)) +
                 AsSigned(Wrap(DeltasAtZero(s, wallet, all, |all|, true))) + TotalMissed(s, wallet, |wallet|))
    ensures TotalMissed(s, wallet, |wallet|) == 0 <==> HistoriesInOrder(s, wallet)
  {
    hide LedgerOk, Merged, DeltasAtZero, TotalScan, ViewOf, HistoriesInOrder;
    BalancesCompared(s, wallet, all);
    SplitByHeight(s, wallet, all, |all|);
    MachineSum(TotalScan(s, wallet, |wallet|), DeltasAtZero(s, wallet, all, |all|, false),
               DeltasAtZero(s, wallet, all, |all|, true), TotalMissed(s, wallet, |wallet|));
  }

  /** Below 2^63 the machine's unconfirmed impact is the exact signed sum; and its total is the wallet's exact unspent
      value if and only if nothing of value is listed as spent before it is paid. */
  lemma MachineBalancesExact(s: Server, wallet: seq<Address>, all: seq<HistoryItem>)
    requires LedgerOk(s, wallet) && Merged(s, wallet, all)
    requires Received(Views(s, wallet, all), |all|) < TWO_63
    ensures Wrap(TotalScan(s, wallet, |wallet|)) == TotalUnspent(s, wallet, |wallet|) <==> HistoriesInOrder(s, wallet)
    ensures HistoriesOrdered(s, wallet) ==> Wrap(TotalScan(s, wallet, |wallet|)) == TotalUtxoValue(s, wallet, |wallet|)
    ensures AsSigned(Wrap(DeltasAtZero(s, wallet, all, |all|, true))) == DeltasAtZero(s, wallet, all, |all|, true)
  {
    hide LedgerOk, Merged, HistoriesOrdered, HistoriesInOrder, DeltasAtZero, TotalScan;
    BalancesCompared(s, wallet, all);
    NoOverflow(s, wallet, all, |all|, true);
    WrapExact(TotalScan(s, wallet, |wallet|));
    SignedExact(DeltasAtZero(s, wallet, all, |all|, true));
    if HistoriesOrdered(s, wallet) {
      BalancesAgree(s, wallet, all);
    }
  }
}

/** A small ledger: the well-formedness the balance theorems ask for can be met, spending included, and with it the
    balances that the code gets wrong. */
module ExampleLedger {
  import opened Wrappers
  import opened MachineIntegers
  import Sequences
  import opened Ledger
  import opened WalletServer
  import opened WalletLedger
  import opened HistoryOrder
  import opened WalletBalances
  import opened HistoryRows
  import opened ConfirmedBalance
  import opened WalletUtxos

  const WALLET: seq<Address> := ["a"]

  /** "p" pays 100 to the wallet; "q" spends it, sends 60 away and 40 back. */
  const PAYMENT := DecodedTx("p", [], [TxOutput("a", OtherPattern, 100)])
  const SPEND := DecodedTx("q", [TxInput("p", 0)], [TxOutput("b", OtherPattern, 60), TxOutput("a", OtherPattern, 40)])

  /** The transactions' heights are left open: 7 and 0, say, or 0 and -1. So is the order they are listed in: a server
      may list a child in its mempool before its parent. */
  function History(hp: int, hq: int, childFirst: bool): seq<HistoryItem> {
    if childFirst then [HistoryItem("q", hq), HistoryItem("p", hp)] else [HistoryItem("p", hp), HistoryItem("q", hq)]
  }

  function Example(hp: int, hq: int, childFirst: bool): Server {
    Answers(
      a => if a == "a" then History(hp, hq, childFirst) else [],
      txid => if txid == "p" then Some("1") else if txid == "q" then Some("2") else None,
      hex => if hex == "1" then Some(PAYMENT) else if hex == "2" then Some(SPEND) else None)
  }

  const PAYMENT_VIEW := TxBalance("p", [], [BalanceOutput("a", OtherPattern, 100, true)])
  const SPEND_VIEW := TxBalance("q", [BalanceInput("p", 0, 100, true, "a")],
    [BalanceOutput("b", OtherPattern, 60, false), BalanceOutput("a", OtherPattern, 40, true)])

  lemma ExampleFetches(hp: int, hq: int, childFirst: bool)
    ensures FetchTx(Example(hp, hq, childFirst), "p") == Success(PAYMENT)
    ensures FetchTx(Example(hp, hq, childFirst), "q") == Success(SPEND)
    ensures forall txid :: FetchTx(Example(hp, hq, childFirst), txid).Success? ==> txid == "p" || txid == "q"
  {
  }

  lemma ExampleViews(hp: int, hq: int, childFirst: bool)
    ensures View(Example(hp, hq, childFirst), WALLET, "p") == Success(PAYMENT_VIEW)
    ensures ViewOf(Example(hp, hq, childFirst), WALLET, "p") == PAYMENT_VIEW
    ensures View(Example(hp, hq, childFirst), WALLET, "q") == Success(SPEND_VIEW)
    ensures ViewOf(Example(hp, hq, childFirst), WALLET, "q") == SPEND_VIEW
  {
    hide FetchTx;
    ExampleFetches(hp, hq, childFirst);
    var s := Example(hp, hq, childFirst);
    assert ViewInput(s, WALLET, SPEND.inputs[0]) == Success(SPEND_VIEW.inputs[0]);
    assert ViewInputs(s, WALLET, SPEND.inputs, 0) == Success([]);
    assert [] + [SPEND_VIEW.inputs[0]] == SPEND_VIEW.inputs;
    assert ViewInputs(s, WALLET, SPEND.inputs, 1) == Success(SPEND_VIEW.inputs);
    assert ViewOutputs(WALLET, PAYMENT.outputs) == PAYMENT_VIEW.outputs;
    assert ViewOutputs(WALLET, SPEND.outputs) == SPEND_VIEW.outputs;
  }

  lemma ExampleListed(hp: int, hq: int, childFirst: bool, txid: TxId)
    ensures Example(hp, hq, childFirst).histories("a") == History(hp, hq, childFirst)
    ensures Txids(History(hp, hq, childFirst)) == if childFirst then ["q", "p"] else ["p", "q"]
    ensures Listed(Example(hp, hq, childFirst), WALLET, txid) <==> txid == "p" || txid == "q"
  {
  }

  lemma ExampleComplete(hp: int, hq: int, childFirst: bool)
    ensures Complete(Example(hp, hq, childFirst), WALLET)
  {
    hide View, ViewOf, FetchTx, Listed;
    var s := Example(hp, hq, childFirst);
    ExampleFetches(hp, hq, childFirst);
    ExampleListed(hp, hq, childFirst, "p");
    forall a, txid | a in WALLET && Listed(s, WALLET, txid)
      ensures txid in Txids(s.histories(a))
    {
      ExampleListed(hp, hq, childFirst, txid);
    }
  }

  lemma ExampleSpendsOnce(hp: int, hq: int, childFirst: bool)
    ensures NoDoubleSpend(Example(hp, hq, childFirst), WALLET)
  {
    hide View, ViewOf, FetchTx, Listed;
    var s := Example(hp, hq, childFirst);
    ExampleViews(hp, hq, childFirst);
    forall t | Listed(s, WALLET, t)
      ensures t == "p" || t == "q"
    {
      ExampleListed(hp, hq, childFirst, t);
    }
  }

  lemma ExampleDistinct(hp: int, hq: int, childFirst: bool)
    ensures HistoriesDistinct(Example(hp, hq, childFirst), WALLET)
  {
  }

  /** With the parent first, funders come before spenders. */
  lemma ExampleOrdered(hp: int, hq: int)
    ensures HistoriesOrdered(Example(hp, hq, false), WALLET)
  {
    hide View, ViewOf, FetchTx;
    ExampleViews(hp, hq, false);
  }

  lemma ExampleMerged(hp: int, hq: int, childFirst: bool)
    ensures Merged(Example(hp, hq, childFirst), WALLET, History(hp, hq, childFirst))
  {
    ExampleListed(hp, hq, childFirst, "p");
    assert "a" in WALLET;
  }

  lemma ExampleHealthy(hp: int, hq: int, childFirst: bool)
    ensures Healthy(Example(hp, hq, childFirst), WALLET) && OneHeight(Example(hp, hq, childFirst), WALLET)
  {
    hide View, ViewOf, FetchTx;
    ExampleFetches(hp, hq, childFirst);
    ExampleViews(hp, hq, childFirst);
    assert Viewable(Example(hp, hq, childFirst), WALLET, "p") && Viewable(Example(hp, hq, childFirst), WALLET, "q");
  }

  /** The example is well formed, whatever the heights and the order. */
  lemma ExampleIsOk(hp: int, hq: int, childFirst: bool)
    ensures LedgerOk(Example(hp, hq, childFirst), WALLET)
    ensures Merged(Example(hp, hq, childFirst), WALLET, History(hp, hq, childFirst))
  {
    hide Healthy, OneHeight, Complete, NoDoubleSpend, HistoriesDistinct, Merged;
    ExampleHealthy(hp, hq, childFirst);
    ExampleComplete(hp, hq, childFirst);
    ExampleSpendsOnce(hp, hq, childFirst);
    ExampleDistinct(hp, hq, childFirst);
    ExampleMerged(hp, hq, childFirst);
  }

  /** By the theorems its wallet holds 40, whatever the heights and the order. */
  lemma ExampleUnspent(hp: int, hq: int, childFirst: bool)
    ensures TotalUnspent(Example(hp, hq, childFirst), WALLET, 1) == 40
    ensures Delta(PAYMENT_VIEW) == 100 && Delta(SPEND_VIEW) == -60
  {
    hide View, ViewOf, FetchTx, LedgerOk, Merged, TotalScan, TotalUnspent, TotalMissed, HistoriesInOrder;
    var s, all := Example(hp, hq, childFirst), History(hp, hq, childFirst);
    var views := Views(s, WALLET, all);
    ExampleIsOk(hp, hq, childFirst);
    ExampleViews(hp, hq, childFirst);
    BalancesCompared(s, WALLET, all);
    assert OutputsInside(SPEND_VIEW.outputs, 1) == 0;
    assert views == if childFirst then [SPEND_VIEW, PAYMENT_VIEW] else [PAYMENT_VIEW, SPEND_VIEW];
    assert Deltas(views, 1) == if childFirst then -60 else 100;
  }

  /** With the parent listed first, the total is right. */
  lemma ExampleTotal(hp: int, hq: int)
    ensures TotalScan(Example(hp, hq, false), WALLET, 1) == TotalUtxoValue(Example(hp, hq, false), WALLET, 1) == 40
  {
    hide View, ViewOf, FetchTx, LedgerOk, Merged, TotalScan, TotalUnspent, TotalUtxoValue, HistoriesOrdered;
    hide HistoriesInOrder;
    var s, all := Example(hp, hq, false), History(hp, hq, false);
    ExampleIsOk(hp, hq, false);
    ExampleOrdered(hp, hq);
    ExampleUnspent(hp, hq, false);
    BalancesAgree(s, WALLET, all);
    BalancesCompared(s, WALLET, all);
  }

  lemma ExampleOnServer(hp: int, hq: int)
    ensures forall tx :: OnServer(Example(hp, hq, false), "p", tx) <==> tx == PAYMENT
    ensures forall tx :: OnServer(Example(hp, hq, false), "q", tx) <==> tx == SPEND
  {
  }

  lemma ExampleParents(hp: int, hq: int)
    ensures ParentsFirst(Example(hp, hq, false), WALLET)
  {
    hide OnServer;
    var s := Example(hp, hq, false);
    ExampleOnServer(hp, hq);
    assert s.histories("a") == History(hp, hq, false);
  }

  /** On the decoded transactions it is sound, with its parent listed first; so its unspent outputs can be listed, and
      however they are, they are worth 40. */
  lemma ExampleSound(hp: int, hq: int)
    ensures SoundLedger(Example(hp, hq, false), WALLET) && ParentsFirst(Example(hp, hq, false), WALLET)
    ensures exists coins :: IsUtxoSet(Example(hp, hq, false), WALLET, coins)
    ensures forall coins :: IsUtxoSet(Example(hp, hq, false), WALLET, coins) ==> Sequences.Sum(CoinValues(coins)) == 40
  {
    hide LedgerOk, SoundLedger, ParentsFirst, IsUtxoSet, TotalUnspent, OnServer, Merged;
    ExampleIsOk(hp, hq, false);
    ExampleParents(hp, hq);
    OkIsSound(Example(hp, hq, false), WALLET);
    UnspentIsUtxoSet(Example(hp, hq, false), WALLET);
    ExampleUnspent(hp, hq, false);
  }

  lemma ChildFirstMisses()
    ensures Missed("a", [SPEND_VIEW, PAYMENT_VIEW], 2) == 100
  {
    var items := [SPEND_VIEW, PAYMENT_VIEW];
    assert SpentValue("p", 0, []) == 0 && SpentValue("q", 1, []) == 0;
    assert SpentBetween(items, "q", 1, 0, 1) == 0;
    assert MissedOutputs("a", items, 0, 1) == 0;
    assert MissedOutputs("a", items, 0, 2) == 0;
    assert SpentBetween(items, "p", 0, 0, 1) == 100;
    assert MissedOutputs("a", items, 1, 1) == 100;
    assert Missed("a", items, 1) == 0;
  }

  /** With the child listed first, the scan misses the spend: the total is 140, and 40 is all there is. */
  lemma ChildFirstMissed(hp: int, hq: int)
    ensures LedgerOk(Example(hp, hq, true), WALLET)
    ensures TotalScan(Example(hp, hq, true), WALLET, 1) == 140 && TotalUnspent(Example(hp, hq, true), WALLET, 1) == 40
  {
    hide View, ViewOf, FetchTx, LedgerOk, Merged, TotalScan, TotalUnspent, Missed, HistoriesInOrder;
    var s, all := Example(hp, hq, true), History(hp, hq, true);
    ExampleIsOk(hp, hq, true);
    ExampleViews(hp, hq, true);
    ExampleUnspent(hp, hq, true);
    BalancesCompared(s, WALLET, all);
    ChildFirstMisses();
    assert Views(s, WALLET, s.histories("a")) == [SPEND_VIEW, PAYMENT_VIEW];
    assert TotalMissed(s, WALLET, 0) == 0;
    assert WALLET[0] == "a";
  }

  /** The payment alone draws on nothing, and leaves 100. */
  lemma PaymentAlone(hp: int, hq: int)
    requires hp > 0 >= hq
    ensures PartUnspent(Example(hp, hq, false), WALLET, History(hp, hq, false), Positive) == 100
  {
    hide View, ViewOf, FetchTx, LedgerOk, Merged, UnspentOfAll, Delta;
    var s, all := Example(hp, hq, false), History(hp, hq, false);
    ExampleIsOk(hp, hq, false);
    ExampleViews(hp, hq, false);
    ExampleUnspent(hp, hq, false);
    PartBalance(s, WALLET, all, Positive);
    assert AtHeight(all, 0, Positive) == [] && AtHeight(all, 1, Positive) == [all[0]];
    assert Views(s, WALLET, AtHeight(all, 2, Positive)) == [PAYMENT_VIEW];
    assert DeltasIn(s, WALLET, all, 1, Positive) == 100;
    PaymentDrawsNothing();
  }

  lemma PaymentDrawsNothing()
    ensures OutsideOfAll(WALLET, 1, [PAYMENT_VIEW]) == 0
  {
    assert Inputs([PAYMENT_VIEW], 1) == [];
    assert OutsideOfAll(WALLET, 0, [PAYMENT_VIEW]) == 0;
  }

  /** With the payment confirmed and the spend at 0, both parts are right: 100 confirmed, -60 unconfirmed. */
  lemma ConfirmedRight()
    ensures var s, all := Example(7, 0, false), History(7, 0, false);
            && Wrap(DeltasAtZero(s, WALLET, all, 2, false)) == PartUnspent(s, WALLET, all, Positive) == 100
            && AsSigned(Wrap(DeltasAtZero(s, WALLET, all, 2, true))) == -60
  {
    hide View, ViewOf, FetchTx, PartUnspent;
    var s, all := Example(7, 0, false), History(7, 0, false);
    ExampleViews(7, 0, false);
    ExampleUnspent(7, 0, false);
    PaymentAlone(7, 0);
    assert DeltasAtZero(s, WALLET, all, 1, true) == 0 && DeltasAtZero(s, WALLET, all, 1, false) == 100;
    SignedExact(-60);
  }

  /** With the spend at -1 instead, nothing wraps, and both are wrong: 40 confirmed instead of 100, and no impact. */
  lemma ConfirmedTooLow()
    ensures var s, all := Example(7, -1, false), History(7, -1, false);
            && LedgerOk(s, WALLET) && Merged(s, WALLET, all) && SpendsWithin(s, WALLET, all, NotZero)
            && Wrap(DeltasAtZero(s, WALLET, all, 2, false)) == 40 && PartUnspent(s, WALLET, all, Positive) == 100
            && AsSigned(Wrap(DeltasAtZero(s, WALLET, all, 2, true))) == 0
  {
    hide View, ViewOf, FetchTx, LedgerOk, Merged, PartUnspent;
    var s, all := Example(7, -1, false), History(7, -1, false);
    ExampleIsOk(7, -1, false);
    ExampleViews(7, -1, false);
    ExampleUnspent(7, -1, false);
    PaymentAlone(7, -1);
    assert DeltasAtZero(s, WALLET, all, 1, true) == 0 && DeltasAtZero(s, WALLET, all, 1, false) == 100;
    assert forall x :: x in all ==> x.height != 0;
  }

  /** With both in the mempool, the spend at -1 counts as confirmed: the confirmed balance wraps to 2^64 - 60. */
  lemma ConfirmedWraps()
    ensures var s, all := Example(0, -1, false), History(0, -1, false);
            && LedgerOk(s, WALLET) && IsWalletHistory(s, WALLET, all)
            && Received(Views(s, WALLET, all), 2) == 140 && TotalScan(s, WALLET, 1) == 40
            && Wrap(DeltasAtZero(s, WALLET, all, 2, false)) == 0xffff_ffff_ffff_ffc4
  {
    hide View, ViewOf, FetchTx, LedgerOk, Merged, TotalScan, TotalUtxoValue;
    var s, all := Example(0, -1, false), History(0, -1, false);
    ExampleIsOk(0, -1, false);
    ExampleViews(0, -1, false);
    ExampleUnspent(0, -1, false);
    ExampleTotal(0, -1);
    assert Received(Views(s, WALLET, all), 1) == 100;
    assert DeltasAtZero(s, WALLET, all, 1, false) == 0;
  }

  /** Alone, the spend draws 100 on the payment. */
  lemma SpendDrawsOutside()
    ensures OutsideOfAll(WALLET, 1, [SPEND_VIEW]) == 100
  {
    var rows := [SPEND_VIEW];
    assert Inputs(rows, 0) == [];
    assert Inputs(rows, 1) == SPEND_VIEW.inputs;
    assert Ids(rows)[0] == "q";
    assert DrawnOutside("a", Ids(rows), []) == 0;
    assert OutsideOfAll(WALLET, 0, rows) == 0;
  }

  /** And the row of the spend, which sorts below the payment it spends, shows 2^64 - 60 instead of 40. */
  lemma RowWraps()
    ensures Wrap(SuffixSum(Example(0, -1, false), WALLET, History(0, -1, false), 1)) == TWO_64 - 60
    ensures RowUtxoValue(Example(0, -1, false), WALLET, History(0, -1, false), 1) == 40
  {
    hide View, ViewOf, FetchTx, LedgerOk, Merged, UnspentOfAll, OutsideOfAll, Delta, TotalUnspent, HistoriesInOrder;
    var s, all := Example(0, -1, false), History(0, -1, false);
    ExampleIsOk(0, -1, false);
    ExampleViews(0, -1, false);
    ExampleUnspent(0, -1, false);
    assert SuffixSum(s, WALLET, all, 2) == 0;
    RowBalance(s, WALLET, all, 1);
    assert Views(s, WALLET, all[1..]) == [SPEND_VIEW];
    SpendDrawsOutside();
  }

  // ---------- another: what is spent is output 1 ----------

  /** "p" pays 60 away and 40 to the wallet; "q" spends those 40. */
  const SPLIT := DecodedTx("p", [], [TxOutput("b", OtherPattern, 60), TxOutput("a", OtherPattern, 40)])
  const SECOND := DecodedTx("q", [TxInput("p", 1)], [TxOutput("b", OtherPattern, 40)])

  function SecondOutput(): Server {
    Answers(
      a => if a == "a" then [HistoryItem("p", 5), HistoryItem("q", 7)] else [],
      txid => if txid == "p" then Some("1") else if txid == "q" then Some("2") else None,
      hex => if hex == "1" then Some(SPLIT) else if hex == "2" then Some(SECOND) else None)
  }

  const SPLIT_VIEW := TxBalance("p", [],
    [BalanceOutput("b", OtherPattern, 60, false), BalanceOutput("a", OtherPattern, 40, true)])
  const SECOND_VIEW := TxBalance("q", [BalanceInput("p", 1, 40, true, "a")],
    [BalanceOutput("b", OtherPattern, 40, false)])

  lemma SecondViews()
    ensures ViewOf(SecondOutput(), WALLET, "p") == SPLIT_VIEW && ViewOf(SecondOutput(), WALLET, "q") == SECOND_VIEW
  {
    hide FetchTx, OnServer, IsFetchError;
    var s := SecondOutput();
    FetchMeans(s, "p");
    FetchMeans(s, "q");
    SecondOnServer();
    assert ViewInput(s, WALLET, SECOND.inputs[0]) == Success(SECOND_VIEW.inputs[0]);
    assert ViewInputs(s, WALLET, SECOND.inputs, 0) == Success([]);
    assert [] + [SECOND_VIEW.inputs[0]] == SECOND_VIEW.inputs;
    assert ViewInputs(s, WALLET, SECOND.inputs, 1) == Success(SECOND_VIEW.inputs);
    assert ViewOutputs(WALLET, SPLIT.outputs) == SPLIT_VIEW.outputs;
    assert ViewOutputs(WALLET, SECOND.outputs) == SECOND_VIEW.outputs;
  }

  lemma SecondOnServer()
    ensures OnServer(SecondOutput(), "p", SPLIT) && OnServer(SecondOutput(), "q", SECOND)
  {
  }

  lemma SecondScan()
    ensures Scan("a", [SPLIT_VIEW, SECOND_VIEW], 2) == 0
  {
    var items := [SPLIT_VIEW, SECOND_VIEW];
    assert SpentValue("p", 1, []) == 0;
    assert SpentValue("p", 1, SECOND_VIEW.inputs) == 40;
    assert SpentBetween(items, "p", 1, 1, 1) == 0;
    assert SpentBetween(items, "p", 1, 1, 2) == 40;
    assert ScanOutputs("a", items, 0, 1) == 0;
    assert ScanOutputs("a", items, 0, 2) == 0;
    assert ScanOutputs("a", items, 1, 1) == 0;
    assert Scan("a", items, 1) == 0;
  }

  /** Nothing is left: the spend is seen as one of output 1. */
  lemma SecondOutputSpent()
    ensures TotalScan(SecondOutput(), WALLET, 1) == 0
  {
    hide ViewOf, Scan;
    SecondViews();
    SecondScan();
    assert Views(SecondOutput(), WALLET, SecondOutput().histories("a")) == [SPLIT_VIEW, SECOND_VIEW];
    assert TotalScan(SecondOutput(), WALLET, 0) == 0;
    assert WALLET[0] == "a";
  }

  // ---------- newest first ----------

  /** A payment at 5 and its spend at 7: the spend is the first row, with balance 40, and the payment the second. */
  lemma NewestOnTop()
    ensures var s, all := Example(5, 7, false), [HistoryItem("q", 7), HistoryItem("p", 5)];
            && IsWalletHistory(s, WALLET, all)
            && Wrap(SuffixSum(s, WALLET, all, 0)) == 40 && Wrap(SuffixSum(s, WALLET, all, 1)) == 100
  {
    hide View, ViewOf, FetchTx, Merged, Delta;
    var s, all := Example(5, 7, false), [HistoryItem("q", 7), HistoryItem("p", 5)];
    SwappedMerged();
    ExampleViews(5, 7, false);
    ExampleUnspent(5, 7, false);
    assert SuffixSum(s, WALLET, all, 2) == 0;
    assert SuffixSum(s, WALLET, all, 1) == 100;
  }

  lemma SwappedMerged()
    ensures Merged(Example(5, 7, false), WALLET, [HistoryItem("q", 7), HistoryItem("p", 5)])
  {
    ExampleListed(5, 7, false, "p");
    var all := [HistoryItem("q", 7), HistoryItem("p", 5)];
    assert Txids(all) == ["q", "p"];
    assert "a" in WALLET;
    assert History(5, 7, false)[0] in History(5, 7, false) && History(5, 7, false)[1] in History(5, 7, false);
  }
}

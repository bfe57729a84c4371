/** The wallet's balance on the decoded transactions themselves: the outputs to it that no listed input names. */
module WalletUtxos {
  import opened Sequences
  import opened Ledger
  import opened WalletServer
  import opened WalletLedger
  import opened WalletBalances

  // ---------- the ledger, in terms of decoded transactions ----------

  /** The output that an input spends pays the address. */
  ghost predicate DrawsOn(s: Server, raw: TxInput, a: Address) {
    exists funder :: OnServer(s, raw.prevTx, funder) && raw.prevIdx < |funder.outputs|
      && funder.outputs[raw.prevIdx].address == a
  }

  /** A listed transaction is on the server, hashes to its id, and every output it spends can be looked up. */
  ghost predicate IsThere(s: Server, txid: TxId) {
    exists tx :: OnServer(s, txid, tx) && tx.id == txid && forall i :: i in tx.inputs ==> HasSource(s, i)
  }

  ghost predicate Pays(s: Server, txid: TxId, a: Address) {
    exists tx, o :: OnServer(s, txid, tx) && o in tx.outputs && o.address == a
  }

  ghost predicate Draws(s: Server, txid: TxId, a: Address) {
    exists tx, i :: OnServer(s, txid, tx) && i in tx.inputs && DrawsOn(s, i, a)
  }

  ghost predicate SpendsEachOnce(s: Server, wallet: seq<Address>) {
    forall t, u, tx, ux, p, q ::
      && Listed(s, wallet, t) && Listed(s, wallet, u) && OnServer(s, t, tx) && OnServer(s, u, ux)
      && 0 <= p < |tx.inputs| && 0 <= q < |ux.inputs| && tx.inputs[p] == ux.inputs[q]
      ==> t == u && p == q
  }

  /** The well-formed ledger, without views. */
  ghost predicate SoundLedger(s: Server, wallet: seq<Address>) {
    && DistinctAddresses(wallet)
    && (forall txid :: Listed(s, wallet, txid) ==> IsThere(s, txid))
    && OneHeight(s, wallet)
    && (forall a, txid :: a in wallet && Pays(s, txid, a) ==> txid in Txids(s.histories(a)))
    && (forall a, txid :: a in wallet && Listed(s, wallet, txid) && Draws(s, txid, a) ==> txid in Txids(s.histories(a)))
    && SpendsEachOnce(s, wallet)
    && HistoriesDistinct(s, wallet)
  }

  /** No history lists a transaction that names itself or a later one as a funder. */
  ghost predicate ParentsFirst(s: Server, wallet: seq<Address>) {
    forall a, j, k, tx, i ::
      && a in wallet && 0 <= j <= k < |s.histories(a)| && OnServer(s, s.histories(a)[j].txid, tx) && i in tx.inputs
      ==> i.prevTx != s.histories(a)[k].txid
  }

  // ---------- it is the one the views are well formed on ----------

  /** The view of a transaction, input by input and output by output. */
  lemma ViewOfIs(s: Server, wallet: seq<Address>, txid: TxId, tx: DecodedTx)
    requires OnServer(s, txid, tx) && forall i :: i in tx.inputs ==> HasSource(s, i)
    ensures View(s, wallet, txid).Success? && IsAnalysisOf(s, wallet, txid, tx, ViewOf(s, wallet, txid))
  {
    hide IsInput, IsOutput, HasSource, IsSourceError, IsFetchError, OnServer, FetchTx, ViewInputs;
    ViewMeans(s, wallet, txid);
    OneOnServer(s, txid);
    FetchMeans(s, txid);
    forall k | 0 <= k < |tx.inputs|
      ensures HasSource(s, tx.inputs[k])
    {
      assert tx.inputs[k] in tx.inputs;
    }
    ViewInputsMeans(s, wallet, tx.inputs, |tx.inputs|);
  }

  lemma ListedView(s: Server, wallet: seq<Address>, txid: TxId) returns (tx: DecodedTx)
    requires IsThere(s, txid)
    ensures OnServer(s, txid, tx) && Viewable(s, wallet, txid)
    ensures IsAnalysisOf(s, wallet, txid, tx, ViewOf(s, wallet, txid))
    ensures forall ux :: OnServer(s, txid, ux) ==> ux == tx
  {
    hide OnServer, HasSource, IsAnalysisOf, View, ViewOf, FetchTx;
    tx :| OnServer(s, txid, tx) && tx.id == txid && forall i :: i in tx.inputs ==> HasSource(s, i);
    ViewOfIs(s, wallet, txid, tx);
    FetchMeans(s, txid);
    OneOnServer(s, txid);
  }

  /** The address of a view's input is the one its outpoint pays. */
  lemma InputDraws(s: Server, wallet: seq<Address>, txid: TxId, i: BalanceInput)
    requires IsThere(s, txid) && i in ViewOf(s, wallet, txid).inputs
    ensures Draws(s, txid, i.address)
  {
    hide OnServer, View, ViewOf, FetchTx, IsThere;
    var tx := ListedView(s, wallet, txid);
    var view := ViewOf(s, wallet, txid);
    var k :| 0 <= k < |view.inputs| && view.inputs[k] == i;
    assert tx.inputs[k] in tx.inputs && DrawsOn(s, tx.inputs[k], i.address);
  }

  lemma SoundIsOk(s: Server, wallet: seq<Address>)
    requires SoundLedger(s, wallet)
    ensures LedgerOk(s, wallet)
  {
    hide Listed, IsThere, Viewable, Pays, Draws, View, ViewOf, FetchTx, SpendsEachOnce, OneHeight;
    forall a, item | a in wallet && item in s.histories(a)
      ensures Viewable(s, wallet, item.txid)
    {
      ItemListed(s, wallet, a, item);
      var tx := ListedView(s, wallet, item.txid);
    }
    SoundIsComplete(s, wallet);
    SoundSpendsOnce(s, wallet);
  }

  lemma ItemListed(s: Server, wallet: seq<Address>, a: Address, item: HistoryItem)
    requires a in wallet && item in s.histories(a)
    ensures Listed(s, wallet, item.txid) && item.txid in Txids(s.histories(a))
  {
    var k :| 0 <= k < |s.histories(a)| && s.histories(a)[k] == item;
    assert Txids(s.histories(a))[k] == item.txid;
  }

  lemma SoundIsComplete(s: Server, wallet: seq<Address>)
    requires SoundLedger(s, wallet)
    ensures Complete(s, wallet)
  {
    hide Listed, IsThere, Draws, View, ViewOf, FetchTx, OnServer, SpendsEachOnce, OneHeight;
    forall a, txid, o |
      a in wallet && FetchTx(s, txid).Success? && o in FetchTx(s, txid).value.outputs && o.address == a
      ensures txid in Txids(s.histories(a))
    {
      FetchMeans(s, txid);
      assert Pays(s, txid, a);
    }
    forall a, txid, i | a in wallet && Listed(s, wallet, txid) && i in ViewOf(s, wallet, txid).inputs && i.address == a
      ensures txid in Txids(s.histories(a))
    {
      InputDraws(s, wallet, txid, i);
    }
  }

  lemma SoundSpendsOnce(s: Server, wallet: seq<Address>)
    requires SoundLedger(s, wallet)
    ensures NoDoubleSpend(s, wallet)
  {
    hide Listed, IsThere, Pays, Draws, View, ViewOf, FetchTx, OnServer, OneHeight, IsOutput;
    forall t, u, p, q |
      && Listed(s, wallet, t) && Listed(s, wallet, u)
      && 0 <= p < |ViewOf(s, wallet, t).inputs| && 0 <= q < |ViewOf(s, wallet, u).inputs|
      && SpendsCoin(ViewOf(s, wallet, t).inputs[p],
                    ViewOf(s, wallet, u).inputs[q].fundingTx, ViewOf(s, wallet, u).inputs[q].fundingIdx)
      ensures t == u && p == q
    {
      var tx := ListedView(s, wallet, t);
      var ux := ListedView(s, wallet, u);
      assert IsInput(s, wallet, tx.inputs[p], ViewOf(s, wallet, t).inputs[p]);
      assert IsInput(s, wallet, ux.inputs[q], ViewOf(s, wallet, u).inputs[q]);
      assert tx.inputs[p] == ux.inputs[q];
    }
  }

  /** And the other way round: the two say the same. */
  lemma OkIsSound(s: Server, wallet: seq<Address>)
    requires LedgerOk(s, wallet)
    ensures SoundLedger(s, wallet)
  {
    hide IsThere, Viewable, Pays, Draws, View, ViewOf, FetchTx, SpendsEachOnce, OneHeight, NoDoubleSpend;
    forall txid | Listed(s, wallet, txid)
      ensures IsThere(s, txid)
    {
      ListedViewable(s, wallet, txid);
      ViewableIsThere(s, wallet, txid);
    }
    forall a, txid | a in wallet && Pays(s, txid, a)
      ensures txid in Txids(s.histories(a))
    {
      PaysFetched(s, txid, a);
    }
    forall a, txid | a in wallet && Listed(s, wallet, txid) && Draws(s, txid, a)
      ensures txid in Txids(s.histories(a))
    {
      DrawsViewed(s, wallet, txid, a);
    }
    OkSpendsOnce(s, wallet);
  }

  lemma ListedViewable(s: Server, wallet: seq<Address>, txid: TxId)
    requires Healthy(s, wallet) && Listed(s, wallet, txid)
    ensures Viewable(s, wallet, txid)
  {
    hide View, FetchTx, Viewable;
    var a :| a in wallet && txid in Txids(s.histories(a));
    var k :| 0 <= k < |s.histories(a)| && Txids(s.histories(a))[k] == txid;
    assert s.histories(a)[k] in s.histories(a);
  }

  lemma ViewableIsThere(s: Server, wallet: seq<Address>, txid: TxId)
    requires Viewable(s, wallet, txid)
    ensures IsThere(s, txid)
  {
    hide OnServer, ViewInputs, ViewInput, HasSource, IsSourceError, IsFetchError;
    FetchMeans(s, txid);
    var tx := FetchTx(s, txid).value;
    ViewInputsMeans(s, wallet, tx.inputs, |tx.inputs|);
    forall i | i in tx.inputs
      ensures HasSource(s, i)
    {
      var k :| 0 <= k < |tx.inputs| && tx.inputs[k] == i;
    }
  }

  lemma PaysFetched(s: Server, txid: TxId, a: Address)
    requires Pays(s, txid, a)
    ensures FetchTx(s, txid).Success? && exists o :: o in FetchTx(s, txid).value.outputs && o.address == a
  {
    hide FetchTx, OnServer, IsFetchError;
    FetchMeans(s, txid);
  }

  /** Whatever draws on the address has an input with that address in its view. */
  lemma DrawsViewed(s: Server, wallet: seq<Address>, txid: TxId, a: Address)
    requires Healthy(s, wallet) && Listed(s, wallet, txid) && Draws(s, txid, a)
    ensures exists i :: i in ViewOf(s, wallet, txid).inputs && i.address == a
  {
    hide FetchTx, OnServer, View, ViewOf, Viewable, Healthy, Listed, IsOutput;
    ListedViewable(s, wallet, txid);
    ViewableIsThere(s, wallet, txid);
    var tx := ListedView(s, wallet, txid);
    var i :| i in tx.inputs && DrawsOn(s, i, a);
    var k :| 0 <= k < |tx.inputs| && tx.inputs[k] == i;
    var view := ViewOf(s, wallet, txid);
    assert IsInput(s, wallet, i, view.inputs[k]);
    OneOnServer(s, i.prevTx);
    assert view.inputs[k] in view.inputs;
  }

  lemma OkSpendsOnce(s: Server, wallet: seq<Address>)
    requires Healthy(s, wallet) && NoDoubleSpend(s, wallet)
    ensures SpendsEachOnce(s, wallet)
  {
    hide Listed, IsThere, View, ViewOf, Viewable, Healthy, FetchTx, OnServer, IsOutput;
    forall t, u, tx, ux, p, q |
      && Listed(s, wallet, t) && Listed(s, wallet, u) && OnServer(s, t, tx) && OnServer(s, u, ux)
      && 0 <= p < |tx.inputs| && 0 <= q < |ux.inputs| && tx.inputs[p] == ux.inputs[q]
      ensures t == u && p == q
    {
      ListedViewable(s, wallet, t);
      ViewableIsThere(s, wallet, t);
      var vt := ListedView(s, wallet, t);
      ListedViewable(s, wallet, u);
      ViewableIsThere(s, wallet, u);
      var vu := ListedView(s, wallet, u);
      assert IsInput(s, wallet, tx.inputs[p], ViewOf(s, wallet, t).inputs[p]);
      assert IsInput(s, wallet, ux.inputs[q], ViewOf(s, wallet, u).inputs[q]);
    }
  }

  lemma ParentsFirstIsOrdered(s: Server, wallet: seq<Address>)
    requires SoundLedger(s, wallet) && ParentsFirst(s, wallet)
    ensures HistoriesOrdered(s, wallet)
  {
    hide Listed, IsThere, Pays, Draws, View, ViewOf, FetchTx, OnServer, OneHeight, IsOutput, SpendsEachOnce;
    forall a | a in wallet
      ensures Ordered(Views(s, wallet, s.histories(a)))
    {
      var items := s.histories(a);
      forall j, k, i | 0 <= j <= k < |items| && i in Views(s, wallet, items)[j].inputs
        ensures i.fundingTx != Views(s, wallet, items)[k].txId
      {
        assert items[j] in items;
        ItemListed(s, wallet, a, items[j]);
        var tx := ListedView(s, wallet, items[j].txid);
        var view := ViewOf(s, wallet, items[j].txid);
        var p :| 0 <= p < |view.inputs| && view.inputs[p] == i;
        assert IsInput(s, wallet, tx.inputs[p], i) && tx.inputs[p] in tx.inputs;
      }
    }
  }

  // ---------- the wallet's unspent outputs ----------

  /** The coin is an output of a listed transaction to the wallet, and no input of a listed transaction names it. */
  ghost predicate IsUtxo(s: Server, wallet: seq<Address>, c: Coin) {
    && c.address in wallet && Listed(s, wallet, c.txId)
    && (exists tx :: OnServer(s, c.txId, tx) && c.idx < |tx.outputs|
          && tx.outputs[c.idx].address == c.address && tx.outputs[c.idx].value == c.value)
    && forall u, ux :: Listed(s, wallet, u) && OnServer(s, u, ux) ==> TxInput(c.txId, c.idx) !in ux.inputs
  }

  /** The coins are the wallet's unspent outputs, each once. */
  ghost predicate IsUtxoSet(s: Server, wallet: seq<Address>, coins: seq<Coin>) {
    Distinct(coins) && forall c :: c in coins <==> IsUtxo(s, wallet, c)
  }

  function CoinValues(coins: seq<Coin>): (r: seq<nat>)
    ensures |r| == |coins| && forall k :: 0 <= k < |r| ==> r[k] == coins[k].value
  {
    seq(|coins|, k requires 0 <= k < |coins| => coins[k].value)
  }

  /** Two lists of the same coins, each once, are worth the same. */
  lemma {:induction false} SameCoinsSameSum(a: seq<Coin>, b: seq<Coin>)
    requires Distinct(a) && Distinct(b) && forall c :: c in a <==> c in b
    ensures Sum(CoinValues(a)) == Sum(CoinValues(b))
    decreases |a|
  {
    hide Distinct, CoinValues, Sum;
    if a == [] {
      FirstMember(b);
    } else {
      assert a[0] in b;
      var p :| 0 <= p < |b| && b[p] == a[0];
      RestMembers(a, b, p);
      SameCoinsSameSum(a[1..], b[..p] + b[p + 1..]);
      SumWithout(a, 0);
      assert a[..0] + a[1..] == a[1..];
      SumWithout(b, p);
    }
  }

  lemma FirstMember(coins: seq<Coin>)
    ensures coins == [] || coins[0] in coins
  {
  }

  lemma RestMembers(a: seq<Coin>, b: seq<Coin>, p: nat)
    requires Distinct(a) && Distinct(b) && forall c :: c in a <==> c in b
    requires a != [] && p < |b| && b[p] == a[0]
    ensures var rest := b[..p] + b[p + 1..];
            Distinct(a[1..]) && Distinct(rest) && forall c :: c in a[1..] <==> c in rest
  {
    var rest := b[..p] + b[p + 1..];
    forall c
      ensures c in a[1..] <==> c in a && c != a[0]
      ensures c in rest <==> c in b && c != b[p]
    {
      assert a == [a[0]] + a[1..];
      assert b == b[..p] + [b[p]] + b[p + 1..];
    }
  }

  lemma SumWithout(b: seq<Coin>, p: nat)
    requires p < |b|
    ensures Sum(CoinValues(b)) == b[p].value + Sum(CoinValues(b[..p] + b[p + 1..]))
  {
    var front, back := CoinValues(b[..p]), CoinValues(b[p + 1..]);
    assert CoinValues(b) == front + ([b[p].value] + back);
    assert CoinValues(b[..p] + b[p + 1..]) == front + back;
    assert ([b[p].value] + back)[1..] == back;
    SumAppend(front, [b[p].value] + back);
    SumAppend(front, back);
  }

  // ---------- the unspent coins of the views are these ----------

  /** The coins of one address. */
  function OfAddress(a: Address, coins: seq<Coin>): seq<Coin> {
    if coins == [] then []
    else
      var front, last := coins[..|coins| - 1], coins[|coins| - 1];
      OfAddress(a, front) + if last.address == a then [last] else []
  }

  lemma {:induction false} OfAddressMeans(a: Address, coins: seq<Coin>)
    requires Distinct(coins)
    ensures forall c :: c in OfAddress(a, coins) <==> c in coins && c.address == a
    ensures Distinct(OfAddress(a, coins))
    ensures Sum(CoinValues(OfAddress(a, coins))) == ValueOf(a, coins)
  {
    hide Distinct, Sum, CoinValues;
    NoCoins();
    if coins != [] {
      var front, last := coins[..|coins| - 1], coins[|coins| - 1];
      assert coins == front + [last];
      WithoutLast(coins);
      OfAddressMeans(a, front);
      var before := OfAddress(a, front);
      if last.address == a {
        CoinsAppend(before, [last]);
      } else {
        assert OfAddress(a, coins) == before;
      }
    }
  }

  lemma WithoutLast(coins: seq<Coin>)
    requires coins != [] && Distinct(coins)
    ensures var front, last := coins[..|coins| - 1], coins[|coins| - 1];
            Distinct(front) && last !in front && Distinct([last])
            && Sum(CoinValues([last])) == last.value
  {
    assert CoinValues([coins[|coins| - 1]])[1..] == [];
  }

  lemma {:induction false} CoinsDistinct(items: seq<TxBalance>, n: nat)
    requires DistinctIds(items) && n <= |items|
    ensures Distinct(Coins(items, n))
    ensures forall c :: c in Coins(items, n) ==> exists k :: 0 <= k < n && c.txId == items[k].txId
  {
    hide DistinctIds;
    if n > 0 {
      CoinsDistinct(items, n - 1);
      var before, last := Coins(items, n - 1), CoinsOf(items[n - 1], |items[n - 1].outputs|);
      forall c, d | c in before && d in last
        ensures c != d
      {
        NotEarlierId(items, n - 1, c.txId);
      }
      DistinctAppend(before, last);
    }
  }

  lemma NotEarlierId(items: seq<TxBalance>, n: nat, txId: TxId)
    requires DistinctIds(items) && n < |items| && exists k :: 0 <= k < n && txId == items[k].txId
    ensures txId != items[n].txId
  {
  }

  lemma DistinctAppend(a: seq<Coin>, b: seq<Coin>)
    requires Distinct(a) && Distinct(b) && forall c, d :: c in a && d in b ==> c != d
    ensures Distinct(a + b)
  {
    forall j, k | 0 <= j < k < |a + b|
      ensures (a + b)[j] != (a + b)[k]
    {
      if j < |a| <= k {
        assert a[j] in a && b[k - |a|] in b;
      }
    }
  }

  lemma {:induction false} UnspentMeans(coins: seq<Coin>, inputs: seq<BalanceInput>)
    requires Distinct(coins)
    ensures Distinct(Unspent(coins, inputs))
    ensures forall c :: c in Unspent(coins, inputs) <==> c in coins && !IsSpent(c, inputs)
  {
    hide IsSpent;
    if coins != [] {
      var front, last := coins[..|coins| - 1], coins[|coins| - 1];
      assert coins == front + [last];
      UnspentMeans(front, inputs);
      var before := Unspent(front, inputs);
      assert forall k :: 0 <= k < |before| ==> before[k] in before;
    }
  }

  /** What the views of an address's history leave it. */
  function LeftTo(s: Server, wallet: seq<Address>, a: Address): seq<Coin> {
    var views := Views(s, wallet, s.histories(a));
    Unspent(Coins(views, |views|), Inputs(views, |views|))
  }

  function LeftToAll(s: Server, wallet: seq<Address>, n: nat): seq<Coin>
    requires n <= |wallet|
  {
    if n == 0 then [] else LeftToAll(s, wallet, n - 1) + OfAddress(wallet[n - 1], LeftTo(s, wallet, wallet[n - 1]))
  }

  /** A coin of the history's views is an output of a listed transaction, and the other way round. */
  lemma CreatedInHistory(s: Server, wallet: seq<Address>, a: Address, c: Coin)
    requires SoundLedger(s, wallet) && a in wallet && c.address == a
    ensures var views := Views(s, wallet, s.histories(a));
            c in Coins(views, |views|) <==> CreatedOnServer(s, wallet, c)
  {
    hide SoundLedger, IsThere, View, ViewOf, OnServer;
    var items := s.histories(a);
    var views := Views(s, wallet, items);
    if c in Coins(views, |views|) {
      CoinMember(views, |views|, c);
      var k :| 0 <= k < |views| && c.txId == views[k].txId && c.idx < |views[k].outputs|
               && c.value == views[k].outputs[c.idx].value && c.address == views[k].outputs[c.idx].address;
      assert items[k] in items;
      ItemListed(s, wallet, a, items[k]);
      var tx := SoundView(s, wallet, c.txId);
      assert IsOutput(wallet, tx.outputs[c.idx], views[k].outputs[c.idx]);
    }
    if CreatedOnServer(s, wallet, c) {
      var tx := SoundView(s, wallet, c.txId);
      var view := ViewOf(s, wallet, c.txId);
      assert IsOutput(wallet, tx.outputs[c.idx], view.outputs[c.idx]);
      assert tx.outputs[c.idx] in tx.outputs && Pays(s, c.txId, a);
      PaidListed(s, wallet, a, c.txId);
      var k :| 0 <= k < |items| && Txids(items)[k] == c.txId;
      assert views[k] == view;
      CoinCreated(views, |views|, k, c.idx);
    }
  }

  ghost predicate CreatedOnServer(s: Server, wallet: seq<Address>, c: Coin) {
    && c.address in wallet && Listed(s, wallet, c.txId)
    && exists tx :: OnServer(s, c.txId, tx) && c.idx < |tx.outputs|
         && tx.outputs[c.idx].address == c.address && tx.outputs[c.idx].value == c.value
  }

  lemma SoundView(s: Server, wallet: seq<Address>, txid: TxId) returns (tx: DecodedTx)
    requires SoundLedger(s, wallet) && Listed(s, wallet, txid)
    ensures IsThere(s, txid) && OnServer(s, txid, tx) && IsAnalysisOf(s, wallet, txid, tx, ViewOf(s, wallet, txid))
    ensures forall ux :: OnServer(s, txid, ux) ==> ux == tx
  {
    hide Listed, IsThere, Pays, Draws, ViewOf, OnServer, SpendsEachOnce, OneHeight, HistoriesDistinct;
    tx := ListedView(s, wallet, txid);
  }

  lemma PaidListed(s: Server, wallet: seq<Address>, a: Address, txid: TxId)
    requires SoundLedger(s, wallet) && a in wallet && Pays(s, txid, a)
    ensures txid in Txids(s.histories(a))
  {
  }

  lemma DrawnListed(s: Server, wallet: seq<Address>, a: Address, txid: TxId)
    requires SoundLedger(s, wallet) && a in wallet && Listed(s, wallet, txid) && Draws(s, txid, a)
    ensures txid in Txids(s.histories(a))
  {
  }

  lemma {:induction false} CoinCreated(items: seq<TxBalance>, n: nat, k: nat, idx: nat)
    requires k < n <= |items| && idx < |items[k].outputs|
    ensures var o := items[k].outputs[idx];
            Coin(items[k].txId, idx, o.address, o.value) in Coins(items, n)
  {
    if k == n - 1 {
      var last := CoinsOf(items[k], |items[k].outputs|);
      assert last[idx] in last;
    } else {
      CoinCreated(items, n - 1, k, idx);
    }
  }

  /** The coin is spent in the history's views exactly if some listed transaction names it. */
  lemma SpentInHistory(s: Server, wallet: seq<Address>, a: Address, c: Coin)
    requires SoundLedger(s, wallet) && a in wallet && c.address == a && CreatedOnServer(s, wallet, c)
    ensures var views := Views(s, wallet, s.histories(a));
            IsSpent(c, Inputs(views, |views|)) <==> SpentOnServer(s, wallet, c)
  {
    hide SoundLedger, IsThere, View, ViewOf, OnServer, Listed, IsOutput;
    var items := s.histories(a);
    var views := Views(s, wallet, items);
    if IsSpent(c, Inputs(views, |views|)) {
      var i :| i in Inputs(views, |views|) && SpendsCoin(i, c.txId, c.idx);
      InputsMember(views, |views|, i);
      var k :| 0 <= k < |views| && i in views[k].inputs;
      assert items[k] in items;
      ItemListed(s, wallet, a, items[k]);
      var ux := SoundView(s, wallet, items[k].txid);
      var p :| 0 <= p < |views[k].inputs| && views[k].inputs[p] == i;
      assert IsInput(s, wallet, ux.inputs[p], i);
      assert ux.inputs[p] == TxInput(c.txId, c.idx);
    }
    if SpentOnServer(s, wallet, c) {
      var i, k := SpenderListed(s, wallet, a, c);
      InputsMember(views, |views|, i);
    }
  }

  ghost predicate SpentOnServer(s: Server, wallet: seq<Address>, c: Coin) {
    exists u, ux :: Listed(s, wallet, u) && OnServer(s, u, ux) && TxInput(c.txId, c.idx) in ux.inputs
  }

  /** Whatever names a coin of the address is in its history. */
  lemma SpenderListed(s: Server, wallet: seq<Address>, a: Address, c: Coin) returns (i: BalanceInput, k: nat)
    requires SoundLedger(s, wallet) && a in wallet && c.address == a && CreatedOnServer(s, wallet, c)
    requires SpentOnServer(s, wallet, c)
    ensures k < |s.histories(a)| && i in Views(s, wallet, s.histories(a))[k].inputs && SpendsCoin(i, c.txId, c.idx)
  {
    hide SoundLedger, IsThere, View, ViewOf, OnServer, Listed, IsOutput;
    var u, ux :| Listed(s, wallet, u) && OnServer(s, u, ux) && TxInput(c.txId, c.idx) in ux.inputs;
    var tx := SoundView(s, wallet, u);
    var p :| 0 <= p < |ux.inputs| && ux.inputs[p] == TxInput(c.txId, c.idx);
    assert DrawsOn(s, ux.inputs[p], a);
    assert Draws(s, u, a);
    DrawnListed(s, wallet, a, u);
    var items := s.histories(a);
    k :| k < |items| && Txids(items)[k] == u;
    i := ViewOf(s, wallet, u).inputs[p];
    assert IsInput(s, wallet, ux.inputs[p], i);
    assert i in ViewOf(s, wallet, u).inputs && Views(s, wallet, items)[k] == ViewOf(s, wallet, u);
  }

  lemma LeftToIs(s: Server, wallet: seq<Address>, a: Address)
    requires SoundLedger(s, wallet) && a in wallet
    ensures var left := OfAddress(a, LeftTo(s, wallet, a));
            && Distinct(left)
            && (forall c :: c in left <==> c.address == a && IsUtxo(s, wallet, c))
            && Sum(CoinValues(left)) == UnspentValue(a, Views(s, wallet, s.histories(a)))
  {
    hide SoundLedger, LedgerOk, IsSpent, View, ViewOf, OnServer, Listed, CreatedOnServer, SpentOnServer, IsUtxo;
    var views := Views(s, wallet, s.histories(a));
    var coins, inputs := Coins(views, |views|), Inputs(views, |views|);
    SoundIsOk(s, wallet);
    HistoryWellFormed(s, wallet, a);
    CoinsDistinct(views, |views|);
    UnspentMeans(coins, inputs);
    OfAddressMeans(a, LeftTo(s, wallet, a));
    forall c: Coin | c.address == a
      ensures c in LeftTo(s, wallet, a) <==> IsUtxo(s, wallet, c)
    {
      CreatedInHistory(s, wallet, a, c);
      UtxoMeans(s, wallet, c);
      if CreatedOnServer(s, wallet, c) {
        SpentInHistory(s, wallet, a, c);
      }
    }
  }

  lemma UtxoMeans(s: Server, wallet: seq<Address>, c: Coin)
    ensures IsUtxo(s, wallet, c) <==> CreatedOnServer(s, wallet, c) && !SpentOnServer(s, wallet, c)
  {
    hide OnServer, Listed;
  }

  lemma {:induction false} LeftToAllIs(s: Server, wallet: seq<Address>, n: nat)
    requires SoundLedger(s, wallet) && n <= |wallet|
    ensures var left := LeftToAll(s, wallet, n);
            && Distinct(left)
            && (forall c :: c in left <==> c.address in wallet[..n] && IsUtxo(s, wallet, c))
            && Sum(CoinValues(left)) == TotalUnspent(s, wallet, n)
  {
    hide SoundLedger, LeftTo, OfAddress, IsUtxo, UnspentValue, Distinct, Sum, CoinValues;
    if n == 0 {
      NoCoins();
    } else {
      var a, before := wallet[n - 1], LeftToAll(s, wallet, n - 1);
      LeftToAllIs(s, wallet, n - 1);
      LeftToIs(s, wallet, a);
      AddressesDistinct(s, wallet, n);
      assert wallet[..n] == wallet[..n - 1] + [a];
      CoinsAppend(before, OfAddress(a, LeftTo(s, wallet, a)));
    }
  }

  lemma NoCoins()
    ensures Distinct<Coin>([]) && Sum(CoinValues([])) == 0
  {
  }

  lemma CoinsAppend(a: seq<Coin>, b: seq<Coin>)
    requires Distinct(a) && Distinct(b) && forall c, d :: c in a && d in b ==> c != d
    ensures Distinct(a + b) && Sum(CoinValues(a + b)) == Sum(CoinValues(a)) + Sum(CoinValues(b))
  {
    hide Distinct;
    DistinctAppend(a, b);
    SumAppend(CoinValues(a), CoinValues(b));
    assert CoinValues(a + b) == CoinValues(a) + CoinValues(b);
  }

  lemma AddressesDistinct(s: Server, wallet: seq<Address>, n: nat)
    requires SoundLedger(s, wallet) && 0 < n <= |wallet|
    ensures wallet[n - 1] !in wallet[..n - 1]
  {
  }

  /** The wallet's unspent outputs can be listed, each once, and whoever lists them, they are worth the wallet's unspent
      value: the outputs of listed transactions to the wallet that no listed transaction names as an input. */
  lemma UnspentIsUtxoSet(s: Server, wallet: seq<Address>)
    requires SoundLedger(s, wallet)
    ensures exists coins :: IsUtxoSet(s, wallet, coins)
    ensures forall coins :: IsUtxoSet(s, wallet, coins) ==> Sum(CoinValues(coins)) == TotalUnspent(s, wallet, |wallet|)
  {
    hide SoundLedger, IsUtxo, TotalUnspent;
    LeftToAllIs(s, wallet, |wallet|);
    var left := LeftToAll(s, wallet, |wallet|);
    assert wallet[..|wallet|] == wallet;
    forall c: Coin
      ensures IsUtxo(s, wallet, c) ==> c.address in wallet
    {
      UtxoMeans(s, wallet, c);
    }
    assert IsUtxoSet(s, wallet, left);
    forall coins | IsUtxoSet(s, wallet, coins)
      ensures Sum(CoinValues(coins)) == TotalUnspent(s, wallet, |wallet|)
    {
      SameCoinsSameSum(coins, left);
    }
  }

  /**
    * What calculate_total_balance computes, on the decoded transactions: where parents are listed before their
    * children, the value of the wallet's unspent outputs.
    */
  lemma TotalIsUtxoSet(s: Server, wallet: seq<Address>, coins: seq<Coin>)
    requires SoundLedger(s, wallet) && ParentsFirst(s, wallet) && IsUtxoSet(s, wallet, coins)
    ensures TotalScan(s, wallet, |wallet|) == Sum(CoinValues(coins))
  {
    hide SoundLedger, ParentsFirst, IsUtxoSet, LedgerOk, HistoriesOrdered, HistoriesInOrder;
    SoundIsOk(s, wallet);
    ParentsFirstIsOrdered(s, wallet);
    UnspentIsUtxoSet(s, wallet);
    TotalOrdered(s, wallet, |wallet|);
  }
}

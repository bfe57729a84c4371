/** The double-counting theorems: sums by address and output against sums by transaction. */
module WalletLedger {
  import opened Sequences
  import opened Ledger

  // ---------- one transaction ----------

  function OutputsInside(outputs: seq<BalanceOutput>, n: nat): nat
    requires n <= |outputs|
  {
    if n == 0 then 0 else OutputsInside(outputs, n - 1) + if outputs[n - 1].inWallet then outputs[n - 1].value else 0
  }

  function InputsInside(inputs: seq<BalanceInput>, n: nat): nat
    requires n <= |inputs|
  {
    if n == 0 then 0 else InputsInside(inputs, n - 1) + if inputs[n - 1].inWallet then inputs[n - 1].value else 0
  }

  function TotalIn(inputs: seq<BalanceInput>, n: nat): nat
    requires n <= |inputs|
  {
    if n == 0 then 0 else TotalIn(inputs, n - 1) + inputs[n - 1].value
  }

  function TotalOut(outputs: seq<BalanceOutput>, n: nat): nat
    requires n <= |outputs|
  {
    if n == 0 then 0 else TotalOut(outputs, n - 1) + outputs[n - 1].value
  }

  /** What a transaction changes for the wallet. */
  function Delta(t: TxBalance): int {
    OutputsInside(t.outputs, |t.outputs|) - InputsInside(t.inputs, |t.inputs|)
  }

  /** The sum of what a transaction changes at each of the first n addresses. */
  function NetOverAddresses(wallet: seq<Address>, n: nat, t: TxBalance): int
    requires n <= |wallet|
  {
    if n == 0 then 0 else NetOverAddresses(wallet, n - 1, t) + TxNet(wallet[n - 1], t)
  }

  predicate DistinctAddresses(wallet: seq<Address>) {
    && (forall j, k :: 0 <= j < k < |wallet| ==> wallet[j] != wallet[k])
    && "" !in wallet
  }

  /** The wallet flags say whose the address is. */
  predicate FlagsTrue(wallet: seq<Address>, t: TxBalance) {
    && (forall o :: o in t.outputs ==> (o.inWallet <==> o.address in wallet))
    && (forall i :: i in t.inputs ==> (i.inWallet <==> i.address in wallet))
  }

  /** v for every time the address is among the first n. */
  function Counted(wallet: seq<Address>, n: nat, a: Address, v: nat): nat
    requires n <= |wallet|
  {
    if n == 0 then 0 else Counted(wallet, n - 1, a, v) + if wallet[n - 1] == a then v else 0
  }

  lemma {:induction false} CountedOnce(wallet: seq<Address>, n: nat, a: Address, v: nat)
    requires n <= |wallet| && DistinctAddresses(wallet)
    ensures Counted(wallet, n, a, v) == if a in wallet[..n] then v else 0
  {
    if n > 0 {
      CountedOnce(wallet, n - 1, a, v);
      assert wallet[..n] == wallet[..n - 1] + [wallet[n - 1]];
    }
  }

  /** The same sum over the first addresses, split into single outputs and inputs. */
  function PaidOver(wallet: seq<Address>, n: nat, coins: seq<Coin>): nat
    requires n <= |wallet|
  {
    if n == 0 then 0 else PaidOver(wallet, n - 1, coins) + ValueOf(wallet[n - 1], coins)
  }

  function DrawnOver(wallet: seq<Address>, n: nat, inputs: seq<BalanceInput>): nat
    requires n <= |wallet|
  {
    if n == 0 then 0 else DrawnOver(wallet, n - 1, inputs) + Drawn(wallet[n - 1], inputs)
  }

  lemma {:induction false} NetOverSplits(wallet: seq<Address>, n: nat, t: TxBalance)
    requires n <= |wallet|
    ensures NetOverAddresses(wallet, n, t)
         == PaidOver(wallet, n, CoinsOf(t, |t.outputs|)) - DrawnOver(wallet, n, t.inputs)
  {
    if n > 0 {
      NetOverSplits(wallet, n - 1, t);
    }
  }

  lemma {:induction false} PaidOverLast(wallet: seq<Address>, n: nat, coins: seq<Coin>)
    requires n <= |wallet| && coins != []
    ensures var c := coins[|coins| - 1];
            PaidOver(wallet, n, coins)
              == PaidOver(wallet, n, coins[..|coins| - 1]) + Counted(wallet, n, c.address, c.value)
  {
    if n > 0 {
      PaidOverLast(wallet, n - 1, coins);
    }
  }

  lemma {:induction false} PaidOverNone(wallet: seq<Address>, n: nat)
    requires n <= |wallet|
    ensures PaidOver(wallet, n, []) == 0 && DrawnOver(wallet, n, []) == 0
  {
    if n > 0 {
      PaidOverNone(wallet, n - 1);
    }
  }

  lemma {:induction false} DrawnOverLast(wallet: seq<Address>, n: nat, inputs: seq<BalanceInput>)
    requires n <= |wallet| && inputs != []
    ensures var i := inputs[|inputs| - 1];
            DrawnOver(wallet, n, inputs)
              == DrawnOver(wallet, n, inputs[..|inputs| - 1]) + Counted(wallet, n, i.address, i.value)
  {
    if n > 0 {
      DrawnOverLast(wallet, n - 1, inputs);
    }
  }

  lemma {:induction false} PaidIsInside(wallet: seq<Address>, t: TxBalance, n: nat)
    requires DistinctAddresses(wallet) && FlagsTrue(wallet, t) && n <= |t.outputs|
    ensures PaidOver(wallet, |wallet|, CoinsOf(t, n)) == OutputsInside(t.outputs, n)
  {
    hide PaidOver, Counted, DistinctAddresses;
    if n == 0 {
      PaidOverNone(wallet, |wallet|);
    } else {
      var o := t.outputs[n - 1];
      PaidIsInside(wallet, t, n - 1);
      PaidOverLast(wallet, |wallet|, CoinsOf(t, n));
      assert CoinsOf(t, n)[..n - 1] == CoinsOf(t, n - 1);
      CountedOnce(wallet, |wallet|, o.address, o.value);
      assert wallet[..|wallet|] == wallet;
      assert o in t.outputs;
    }
  }

  lemma {:induction false} DrawnIsInside(wallet: seq<Address>, t: TxBalance, n: nat)
    requires DistinctAddresses(wallet) && FlagsTrue(wallet, t) && n <= |t.inputs|
    ensures DrawnOver(wallet, |wallet|, t.inputs[..n]) == InputsInside(t.inputs, n)
  {
    hide DrawnOver, Counted, DistinctAddresses;
    if n == 0 {
      PaidOverNone(wallet, |wallet|);
    } else {
      var i := t.inputs[n - 1];
      DrawnIsInside(wallet, t, n - 1);
      DrawnOverLast(wallet, |wallet|, t.inputs[..n]);
      assert t.inputs[..n][..n - 1] == t.inputs[..n - 1];
      CountedOnce(wallet, |wallet|, i.address, i.value);
      assert wallet[..|wallet|] == wallet;
      assert i in t.inputs;
    }
  }

  /** The wallet delta is the sum over the wallet's addresses. */
  lemma DeltaByAddress(wallet: seq<Address>, t: TxBalance)
    requires DistinctAddresses(wallet) && FlagsTrue(wallet, t)
    ensures Delta(t) == NetOverAddresses(wallet, |wallet|, t)
  {
    NetOverSplits(wallet, |wallet|, t);
    PaidIsInside(wallet, t, |t.outputs|);
    DrawnIsInside(wallet, t, |t.inputs|);
    assert t.inputs[..|t.inputs|] == t.inputs;
  }

  // ---------- lists of transactions ----------

  function Deltas(items: seq<TxBalance>, n: nat): int
    requires n <= |items|
  {
    if n == 0 then 0 else Deltas(items, n - 1) + Delta(items[n - 1])
  }

  /** The sum over the first n addresses of the signed sums of a list. */
  function NetOfAll(wallet: seq<Address>, n: nat, items: seq<TxBalance>): int
    requires n <= |wallet|
  {
    if n == 0 then 0 else NetOfAll(wallet, n - 1, items) + Net(wallet[n - 1], items, |items|)
  }

  lemma {:induction false} NetOfAllLast(wallet: seq<Address>, n: nat, items: seq<TxBalance>, m: nat)
    requires n <= |wallet| && 0 < m <= |items|
    ensures NetOfAll(wallet, n, items[..m])
         == NetOfAll(wallet, n, items[..m - 1]) + NetOverAddresses(wallet, n, items[m - 1])
  {
    hide TxNet;
    if n > 0 {
      NetOfAllLast(wallet, n - 1, items, m);
      NetOfPrefix(wallet[n - 1], items[..m - 1], items[..m], m - 1);
    }
  }

  lemma {:induction false} NetOfPrefix(a: Address, less: seq<TxBalance>, more: seq<TxBalance>, n: nat)
    requires n <= |less| && less <= more
    ensures Net(a, less, n) == Net(a, more, n)
  {
    if n > 0 {
      NetOfPrefix(a, less, more, n - 1);
    }
  }

  lemma {:induction false} NetOfNone(wallet: seq<Address>, n: nat)
    requires n <= |wallet|
    ensures NetOfAll(wallet, n, []) == 0
  {
    if n > 0 {
      NetOfNone(wallet, n - 1);
    }
  }

  /** Summing by transaction is summing by address. */
  lemma {:induction false} DeltasByAddress(wallet: seq<Address>, items: seq<TxBalance>, m: nat)
    requires DistinctAddresses(wallet) && m <= |items|
    requires forall t :: t in items ==> FlagsTrue(wallet, t)
    ensures Deltas(items, m) == NetOfAll(wallet, |wallet|, items[..m])
  {
    if m == 0 {
      NetOfNone(wallet, |wallet|);
    } else {
      DeltasByAddress(wallet, items, m - 1);
      assert items[m - 1] in items;
      DeltaByAddress(wallet, items[m - 1]);
      NetOfAllLast(wallet, |wallet|, items, m);
    }
  }

  // ---------- any list of a wallet's transactions, in any order ----------

  /** Over the first n addresses: the value of the coins of the list that the list leaves unspent. */
  function UnspentOfAll(wallet: seq<Address>, n: nat, items: seq<TxBalance>): nat
    requires n <= |wallet|
  {
    if n == 0 then 0
    else
      UnspentOfAll(wallet, n - 1, items) +
      ValueOf(wallet[n - 1], Unspent(Coins(items, |items|), Inputs(items, |items|)))
  }

  /** Over the first n addresses: what the list draws on coins that are not its own. */
  function OutsideOfAll(wallet: seq<Address>, n: nat, items: seq<TxBalance>): nat
    requires n <= |wallet|
  {
    if n == 0 then 0
    else OutsideOfAll(wallet, n - 1, items) + DrawnOutside(wallet[n - 1], Ids(items), Inputs(items, |items|))
  }

  lemma {:induction false} NetOfAllIsUnspent(wallet: seq<Address>, n: nat, items: seq<TxBalance>)
    requires n <= |wallet| && DistinctIds(items) && Carried(items) && SpentOnce(Inputs(items, |items|))
    ensures NetOfAll(wallet, n, items) == UnspentOfAll(wallet, n, items) - OutsideOfAll(wallet, n, items)
  {
    if n > 0 {
      NetOfAllIsUnspent(wallet, n - 1, items);
      NetIsRemaining(wallet[n - 1], items);
      CarriedIsFair(items);
      RemainingIsUnspent(wallet[n - 1], Coins(items, |items|), Inputs(items, |items|));
    }
  }

  /**
    * The signed sum of any list of transactions, whatever its order, is the value of the coins it leaves the
    * wallet, less what it draws on coins from outside the list. It is that value exactly when the list is closed
    * under spending.
    */
  lemma DeltasAreUnspent(wallet: seq<Address>, items: seq<TxBalance>)
    requires DistinctAddresses(wallet) && DistinctIds(items) && Carried(items) && SpentOnce(Inputs(items, |items|))
    requires forall t :: t in items ==> FlagsTrue(wallet, t)
    ensures Deltas(items, |items|) == UnspentOfAll(wallet, |wallet|, items) - OutsideOfAll(wallet, |wallet|, items)
  {
    DeltasByAddress(wallet, items, |items|);
    assert items[..|items|] == items;
    NetOfAllIsUnspent(wallet, |wallet|, items);
  }

  lemma {:induction false} NothingOutsideExactly(a: Address, ids: seq<TxId>, inputs: seq<BalanceInput>)
    ensures DrawnOutside(a, ids, inputs) == 0
       <==> forall i :: i in inputs && i.address == a && i.fundingTx !in ids ==> i.value == 0
  {
    if inputs != [] {
      var front, last := inputs[..|inputs| - 1], inputs[|inputs| - 1];
      assert inputs == front + [last];
      NothingOutsideExactly(a, ids, front);
      assert last in inputs;
    }
  }

  /** The list has the input, but not its funder. */
  ghost predicate InputFromOutside(items: seq<TxBalance>, i: BalanceInput) {
    i in Inputs(items, |items|) && i.fundingTx !in Ids(items)
  }

  lemma {:induction false} NothingOutsideOfAllExactly(wallet: seq<Address>, n: nat, items: seq<TxBalance>)
    requires n <= |wallet|
    ensures OutsideOfAll(wallet, n, items) == 0
       <==> forall i :: InputFromOutside(items, i) && i.address in wallet[..n] ==> i.value == 0
  {
    if n > 0 {
      NothingOutsideOfAllExactly(wallet, n - 1, items);
      assert wallet[..n] == wallet[..n - 1] + [wallet[n - 1]];
      NothingOutsideExactly(wallet[n - 1], Ids(items), Inputs(items, |items|));
    }
  }

  // ---------- sums over transaction ids ----------

  function SumOver(f: TxId -> int, ids: seq<TxId>): int {
    if ids == [] then 0 else SumOver(f, ids[..|ids| - 1]) + f(ids[|ids| - 1])
  }

  lemma {:induction false} SumOverZero(f: TxId -> int, ids: seq<TxId>)
    requires forall x :: x in ids ==> f(x) == 0
    ensures SumOver(f, ids) == 0
  {
    if ids != [] {
      assert ids[|ids| - 1] in ids;
      SumOverZero(f, ids[..|ids| - 1]);
    }
  }

  lemma {:induction false} SumOverWithout(f: TxId -> int, ids: seq<TxId>, p: nat)
    requires p < |ids|
    ensures SumOver(f, ids) == SumOver(f, ids[..p] + ids[p + 1..]) + f(ids[p])
  {
    var n := |ids| - 1;
    var rest := ids[..p] + ids[p + 1..];
    if p == n {
      assert rest == ids[..n];
    } else {
      var front := ids[..n];
      assert rest[..n - 1] == front[..p] + front[p + 1..];
      SumOverWithout(f, front, p);
    }
  }

  lemma WithoutMembers(ids: seq<TxId>, p: nat)
    requires p < |ids| && Distinct(ids)
    ensures var rest := ids[..p] + ids[p + 1..];
            Distinct(rest) && forall x :: x in rest <==> x in ids && x != ids[p]
  {
  }

  /** The sum over a part in another order is the sum over the whole, if the rest adds nothing: histories are
      de-duplicated. */
  lemma {:induction false} SumOverPart(f: TxId -> int, part: seq<TxId>, whole: seq<TxId>)
    requires Distinct(part) && Distinct(whole)
    requires forall x :: x in part ==> x in whole
    requires forall x :: x in whole && x !in part ==> f(x) == 0
    ensures SumOver(f, part) == SumOver(f, whole)
    decreases |part|
  {
    if part == [] {
      SumOverZero(f, whole);
    } else {
      var n := |part| - 1;
      assert part[n] in part;
      var p :| 0 <= p < |whole| && whole[p] == part[n];
      var front, rest := part[..n], whole[..p] + whole[p + 1..];
      assert part[..n] + part[n + 1..] == front;
      WithoutMembers(part, n);
      WithoutMembers(whole, p);
      SumOverWithout(f, whole, p);
      SumOverPart(f, front, rest);
    }
  }
}

/**
  * The arithmetic of a list of transactions, as exact integers: the quadratic scan of HistoryInspector,
  * signed sums, and two reference forms, the unspent coins and the replay of a UTXO set.
  */
module Ledger {
  import opened MachineIntegers

  type TxId = string
  type Address = string

  /** The part of libbitcoin's script_pattern that matters; NoPattern is the source's -1. */
  datatype ScriptKind = PayScriptHash | OtherPattern | NoPattern

  datatype BalanceInput = BalanceInput(fundingTx: TxId, fundingIdx: nat, value: U64, inWallet: bool, address: Address)
  datatype BalanceOutput = BalanceOutput(address: Address, scriptKind: ScriptKind, value: U64, inWallet: bool)
  datatype TxBalance = TxBalance(txId: TxId, inputs: seq<BalanceInput>, outputs: seq<BalanceOutput>)

  /** An output with its outpoint. */
  datatype Coin = Coin(txId: TxId, idx: nat, address: Address, value: U64)

  // ---------- lists of inputs and of coins ----------

  predicate SpendsCoin(i: BalanceInput, txId: TxId, idx: nat) {
    i.fundingTx == txId && i.fundingIdx == idx
  }

  /** What the inputs take from one outpoint. */
  function SpentValue(txId: TxId, idx: nat, inputs: seq<BalanceInput>): nat {
    if inputs == [] then 0
    else
      var i := inputs[|inputs| - 1];
      SpentValue(txId, idx, inputs[..|inputs| - 1]) + if SpendsCoin(i, txId, idx) then i.value else 0
  }

  /** What the inputs take from an address. */
  function Drawn(a: Address, inputs: seq<BalanceInput>): nat {
    if inputs == [] then 0
    else
      var i := inputs[|inputs| - 1];
      Drawn(a, inputs[..|inputs| - 1]) + if i.address == a then i.value else 0
  }

  /** What the coins pay to an address. */
  function ValueOf(a: Address, coins: seq<Coin>): nat {
    if coins == [] then 0
    else
      var c := coins[|coins| - 1];
      ValueOf(a, coins[..|coins| - 1]) + if c.address == a then c.value else 0
  }

  function CoinsOf(t: TxBalance, n: nat): (r: seq<Coin>)
    requires n <= |t.outputs|
    ensures |r| == n
    ensures forall k :: 0 <= k < n ==> r[k] == Coin(t.txId, k, t.outputs[k].address, t.outputs[k].value)
  {
    seq(n, k requires 0 <= k < n => Coin(t.txId, k, t.outputs[k].address, t.outputs[k].value))
  }

  /** The coins that the first n transactions create. */
  function Coins(items: seq<TxBalance>, n: nat): seq<Coin>
    requires n <= |items|
  {
    if n == 0 then [] else Coins(items, n - 1) + CoinsOf(items[n - 1], |items[n - 1].outputs|)
  }

  /** The inputs of the first n transactions. */
  function Inputs(items: seq<TxBalance>, n: nat): seq<BalanceInput>
    requires n <= |items|
  {
    if n == 0 then [] else Inputs(items, n - 1) + items[n - 1].inputs
  }

  lemma {:induction false} SpentValueAppend(txId: TxId, idx: nat, a: seq<BalanceInput>, b: seq<BalanceInput>)
    ensures SpentValue(txId, idx, a + b) == SpentValue(txId, idx, a) + SpentValue(txId, idx, b)
  {
    if b == [] {
      assert a + b == a;
    } else {
      assert (a + b)[..|a + b| - 1] == a + b[..|b| - 1];
      SpentValueAppend(txId, idx, a, b[..|b| - 1]);
    }
  }

  lemma {:induction false} DrawnAppend(address: Address, a: seq<BalanceInput>, b: seq<BalanceInput>)
    ensures Drawn(address, a + b) == Drawn(address, a) + Drawn(address, b)
  {
    if b == [] {
      assert a + b == a;
    } else {
      assert (a + b)[..|a + b| - 1] == a + b[..|b| - 1];
      DrawnAppend(address, a, b[..|b| - 1]);
    }
  }

  lemma {:induction false} ValueOfAppend(address: Address, a: seq<Coin>, b: seq<Coin>)
    ensures ValueOf(address, a + b) == ValueOf(address, a) + ValueOf(address, b)
  {
    if b == [] {
      assert a + b == a;
    } else {
      assert (a + b)[..|a + b| - 1] == a + b[..|b| - 1];
      ValueOfAppend(address, a, b[..|b| - 1]);
    }
  }

  // ---------- the quadratic scan ----------

  /** What transactions lo..hi take from one outpoint. */
  function SpentBetween(items: seq<TxBalance>, txId: TxId, idx: nat, lo: nat, hi: nat): nat
    requires lo <= hi <= |items|
    decreases hi
  {
    if lo == hi then 0
    else SpentBetween(items, txId, idx, lo, hi - 1) + SpentValue(txId, idx, items[hi - 1].inputs)
  }

  /** What the first n outputs of transaction p leave the address, after all later spends. */
  function ScanOutputs(a: Address, items: seq<TxBalance>, p: nat, n: nat): int
    requires p < |items| && n <= |items[p].outputs|
  {
    if n == 0 then 0
    else
      var o := items[p].outputs[n - 1];
      ScanOutputs(a, items, p, n - 1) +
      if o.address == a then o.value - SpentBetween(items, items[p].txId, n - 1, p + 1, |items|) else 0
  }

  /** The scan of the first n transactions: every output to the address, less every later input that spends it. */
  function Scan(a: Address, items: seq<TxBalance>, n: nat): int
    requires n <= |items|
  {
    if n == 0 then 0 else Scan(a, items, n - 1) + ScanOutputs(a, items, n - 1, |items[n - 1].outputs|)
  }

  // ---------- well-formed ledgers ----------

  predicate DistinctIds(items: seq<TxBalance>) {
    forall j, k :: 0 <= j < k < |items| ==> items[j].txId != items[k].txId
  }

  /** Funder before spender: no input refers to its own or a later transaction. */
  predicate Ordered(items: seq<TxBalance>) {
    forall j, k, i :: 0 <= j <= k < |items| && i in items[j].inputs ==> i.fundingTx != items[k].txId
  }

  /** An input carries the address and value of the output it spends. */
  predicate Carries(i: BalanceInput, t: TxBalance) {
    i.fundingTx == t.txId ==>
      && i.fundingIdx < |t.outputs|
      && i.address == t.outputs[i.fundingIdx].address
      && i.value == t.outputs[i.fundingIdx].value
  }

  predicate Carried(items: seq<TxBalance>) {
    forall j, k, i :: 0 <= j < |items| && 0 <= k < |items| && i in items[j].inputs ==> Carries(i, items[k])
  }

  /** Every input from the address is funded by a transaction of the list. */
  ghost predicate FundedWithin(a: Address, items: seq<TxBalance>) {
    forall j, i :: 0 <= j < |items| && i in items[j].inputs && i.address == a ==> i.fundingTx in Ids(items)
  }

  function Ids(items: seq<TxBalance>): (r: seq<TxId>)
    ensures |r| == |items|
    ensures forall k :: 0 <= k < |items| ==> r[k] == items[k].txId
  {
    seq(|items|, k requires 0 <= k < |items| => items[k].txId)
  }

  /** Each outpoint is spent at most once. */
  predicate SpentOnce(inputs: seq<BalanceInput>) {
    forall p, q :: 0 <= p < q < |inputs| ==>
      !(inputs[p].fundingTx == inputs[q].fundingTx && inputs[p].fundingIdx == inputs[q].fundingIdx)
  }

  // ---------- coins and inputs matched ----------

  /** The coins of an address, less what the inputs take from each. */
  function Remaining(a: Address, coins: seq<Coin>, inputs: seq<BalanceInput>): int {
    if coins == [] then 0
    else
      var c := coins[|coins| - 1];
      Remaining(a, coins[..|coins| - 1], inputs) +
      if c.address == a then c.value - SpentValue(c.txId, c.idx, inputs) else 0
  }

  /** What one input takes from the coins of an address. */
  function TakenBy(i: BalanceInput, a: Address, coins: seq<Coin>): nat {
    if coins == [] then 0
    else
      var c := coins[|coins| - 1];
      TakenBy(i, a, coins[..|coins| - 1]) + if c.address == a && SpendsCoin(i, c.txId, c.idx) then i.value else 0
  }

  function TakenByAll(inputs: seq<BalanceInput>, a: Address, coins: seq<Coin>): nat {
    if inputs == [] then 0
    else TakenByAll(inputs[..|inputs| - 1], a, coins) + TakenBy(inputs[|inputs| - 1], a, coins)
  }

  lemma {:induction false} RemainingWithoutInputs(a: Address, coins: seq<Coin>)
    ensures Remaining(a, coins, []) == ValueOf(a, coins)
  {
    if coins != [] {
      RemainingWithoutInputs(a, coins[..|coins| - 1]);
    }
  }

  lemma {:induction false} RemainingLastInput(a: Address, coins: seq<Coin>, inputs: seq<BalanceInput>)
    requires inputs != []
    ensures Remaining(a, coins, inputs)
         == Remaining(a, coins, inputs[..|inputs| - 1]) - TakenBy(inputs[|inputs| - 1], a, coins)
  {
    if coins != [] {
      RemainingLastInput(a, coins[..|coins| - 1], inputs);
    }
  }

  /** The double sum over coins and inputs, summed the other way round. */
  lemma {:induction false} SumsExchanged(a: Address, coins: seq<Coin>, inputs: seq<BalanceInput>)
    ensures Remaining(a, coins, inputs) == ValueOf(a, coins) - TakenByAll(inputs, a, coins)
  {
    if inputs == [] {
      RemainingWithoutInputs(a, coins);
    } else {
      RemainingLastInput(a, coins, inputs);
      SumsExchanged(a, coins, inputs[..|inputs| - 1]);
    }
  }

  lemma {:induction false} TakenByAppend(i: BalanceInput, a: Address, c: seq<Coin>, d: seq<Coin>)
    ensures TakenBy(i, a, c + d) == TakenBy(i, a, c) + TakenBy(i, a, d)
  {
    if d == [] {
      assert c + d == c;
    } else {
      assert (c + d)[..|c + d| - 1] == c + d[..|d| - 1];
      TakenByAppend(i, a, c, d[..|d| - 1]);
    }
  }

  /** From one transaction an input takes its value if that is its funder and the output is the address's. */
  lemma {:induction false} TakenFromOne(i: BalanceInput, a: Address, t: TxBalance, n: nat)
    requires n <= |t.outputs| && Carries(i, t)
    ensures TakenBy(i, a, CoinsOf(t, n))
         == if i.fundingTx == t.txId && i.fundingIdx < n && i.address == a then i.value else 0
  {
    if n > 0 {
      TakenFromOne(i, a, t, n - 1);
      assert CoinsOf(t, n)[..n - 1] == CoinsOf(t, n - 1);
    }
  }

  lemma IdsUpTo(items: seq<TxBalance>, n: nat)
    requires 0 < n <= |items| && DistinctIds(items)
    ensures forall x :: x in Ids(items)[..n] <==> x in Ids(items)[..n - 1] || x == items[n - 1].txId
    ensures items[n - 1].txId !in Ids(items)[..n - 1]
  {
  }

  /** From the whole list an input takes its value exactly once, if it draws on the address and its funder is there. */
  lemma {:induction false} TakenFromList(i: BalanceInput, a: Address, items: seq<TxBalance>, n: nat)
    requires n <= |items| && DistinctIds(items)
    requires forall k :: 0 <= k < |items| ==> Carries(i, items[k])
    ensures TakenBy(i, a, Coins(items, n)) == if i.address == a && i.fundingTx in Ids(items)[..n] then i.value else 0
  {
    hide DistinctIds;
    if n > 0 {
      var t := items[n - 1];
      TakenFromList(i, a, items, n - 1);
      TakenByAppend(i, a, Coins(items, n - 1), CoinsOf(t, |t.outputs|));
      TakenFromOne(i, a, t, |t.outputs|);
      IdsUpTo(items, n);
    }
  }

  /** What the inputs take from an address out of transactions that are not among these. */
  function DrawnOutside(a: Address, ids: seq<TxId>, inputs: seq<BalanceInput>): nat {
    if inputs == [] then 0
    else
      var i := inputs[|inputs| - 1];
      DrawnOutside(a, ids, inputs[..|inputs| - 1]) + if i.address == a && i.fundingTx !in ids then i.value else 0
  }

  lemma {:induction false} TakenIsDrawn(a: Address, items: seq<TxBalance>, inputs: seq<BalanceInput>)
    requires DistinctIds(items)
    requires forall i, k :: i in inputs && 0 <= k < |items| ==> Carries(i, items[k])
    ensures TakenByAll(inputs, a, Coins(items, |items|)) == Drawn(a, inputs) - DrawnOutside(a, Ids(items), inputs)
  {
    if inputs != [] {
      var front, i := inputs[..|inputs| - 1], inputs[|inputs| - 1];
      assert forall j :: j in front ==> j in inputs;
      TakenIsDrawn(a, items, front);
      assert i in inputs;
      TakenFromList(i, a, items, |items|);
      assert Ids(items)[..|items|] == Ids(items);
    }
  }

  lemma {:induction false} NothingOutside(a: Address, ids: seq<TxId>, inputs: seq<BalanceInput>)
    requires forall i :: i in inputs && i.address == a ==> i.fundingTx in ids
    ensures DrawnOutside(a, ids, inputs) == 0
  {
    if inputs != [] {
      assert inputs[|inputs| - 1] in inputs;
      NothingOutside(a, ids, inputs[..|inputs| - 1]);
    }
  }

  // ---------- signed sums ----------

  /** What one transaction changes at an address. */
  function TxNet(a: Address, t: TxBalance): int {
    ValueOf(a, CoinsOf(t, |t.outputs|)) - Drawn(a, t.inputs)
  }

  function Net(a: Address, items: seq<TxBalance>, n: nat): int
    requires n <= |items|
  {
    if n == 0 then 0 else Net(a, items, n - 1) + TxNet(a, items[n - 1])
  }

  lemma {:induction false} NetSplits(a: Address, items: seq<TxBalance>, n: nat)
    requires n <= |items|
    ensures Net(a, items, n) == ValueOf(a, Coins(items, n)) - Drawn(a, Inputs(items, n))
  {
    if n > 0 {
      var t := items[n - 1];
      NetSplits(a, items, n - 1);
      ValueOfAppend(a, Coins(items, n - 1), CoinsOf(t, |t.outputs|));
      DrawnAppend(a, Inputs(items, n - 1), t.inputs);
    }
  }

  lemma {:induction false} InputsMember(items: seq<TxBalance>, n: nat, i: BalanceInput)
    requires n <= |items|
    ensures i in Inputs(items, n) <==> exists k :: 0 <= k < n && i in items[k].inputs
  {
    if n > 0 {
      InputsMember(items, n - 1, i);
    }
  }

  /**
    * Conservation: what all transactions together change at an address is what its coins keep, less what is
    * drawn on coins from outside the list. No order is needed.
    */
  lemma NetIsRemaining(a: Address, items: seq<TxBalance>)
    requires DistinctIds(items) && Carried(items)
    ensures var coins, inputs := Coins(items, |items|), Inputs(items, |items|);
            Net(a, items, |items|) == Remaining(a, coins, inputs) - DrawnOutside(a, Ids(items), inputs)
  {
    var coins, inputs := Coins(items, |items|), Inputs(items, |items|);
    SumsExchanged(a, coins, inputs);
    InputsOrigin(items);
    TakenIsDrawn(a, items, inputs);
    NetSplits(a, items, |items|);
  }

  lemma InputsOrigin(items: seq<TxBalance>)
    ensures forall i :: i in Inputs(items, |items|) ==> exists j :: 0 <= j < |items| && i in items[j].inputs
  {
    forall i | i in Inputs(items, |items|)
      ensures exists j :: 0 <= j < |items| && i in items[j].inputs
    {
      InputsMember(items, |items|, i);
    }
  }

  // ---------- the scan against the coins ----------

  lemma {:induction false} SpentBetweenSplits(items: seq<TxBalance>, txId: TxId, idx: nat, lo: nat, hi: nat)
    requires lo <= hi <= |items|
    ensures SpentBetween(items, txId, idx, lo, hi)
         == SpentValue(txId, idx, Inputs(items, hi)) - SpentValue(txId, idx, Inputs(items, lo))
    decreases hi
  {
    if lo < hi {
      SpentBetweenSplits(items, txId, idx, lo, hi - 1);
      SpentValueAppend(txId, idx, Inputs(items, hi - 1), items[hi - 1].inputs);
    }
  }

  lemma {:induction false} NotSpent(txId: TxId, idx: nat, inputs: seq<BalanceInput>)
    requires forall i :: i in inputs ==> !SpendsCoin(i, txId, idx)
    ensures SpentValue(txId, idx, inputs) == 0
  {
    if inputs != [] {
      assert inputs[|inputs| - 1] in inputs;
      NotSpent(txId, idx, inputs[..|inputs| - 1]);
    }
  }

  /** In a well-ordered list, looking only at later transactions misses no spend. */
  lemma LaterSpendsAreAll(items: seq<TxBalance>, p: nat, idx: nat)
    requires p < |items| && Ordered(items)
    ensures SpentBetween(items, items[p].txId, idx, p + 1, |items|)
         == SpentValue(items[p].txId, idx, Inputs(items, |items|))
  {
    var txId := items[p].txId;
    SpentBetweenSplits(items, txId, idx, p + 1, |items|);
    forall i | i in Inputs(items, p + 1)
      ensures !SpendsCoin(i, txId, idx)
    {
      InputsMember(items, p + 1, i);
    }
    NotSpent(txId, idx, Inputs(items, p + 1));
  }

  lemma {:induction false} RemainingAppend(a: Address, c: seq<Coin>, d: seq<Coin>, inputs: seq<BalanceInput>)
    ensures Remaining(a, c + d, inputs) == Remaining(a, c, inputs) + Remaining(a, d, inputs)
  {
    if d == [] {
      assert c + d == c;
    } else {
      assert (c + d)[..|c + d| - 1] == c + d[..|d| - 1];
      RemainingAppend(a, c, d[..|d| - 1], inputs);
    }
  }

  // ---------- what a scan in the wrong order misses ----------

  /** What the first n outputs of transaction p lose, to the address, in spends listed before p or in p itself: looking
      only at later transactions, the scan does not see them. */
  function MissedOutputs(a: Address, items: seq<TxBalance>, p: nat, n: nat): nat
    requires p < |items| && n <= |items[p].outputs|
  {
    if n == 0 then 0
    else
      MissedOutputs(a, items, p, n - 1) +
      if items[p].outputs[n - 1].address == a then SpentBetween(items, items[p].txId, n - 1, 0, p + 1) else 0
  }

  function Missed(a: Address, items: seq<TxBalance>, n: nat): nat
    requires n <= |items|
  {
    if n == 0 then 0 else Missed(a, items, n - 1) + MissedOutputs(a, items, n - 1, |items[n - 1].outputs|)
  }

  /** Whatever is spent, is spent later or missed. */
  lemma LaterOrMissed(items: seq<TxBalance>, p: nat, idx: nat)
    requires p < |items|
    ensures SpentBetween(items, items[p].txId, idx, p + 1, |items|) + SpentBetween(items, items[p].txId, idx, 0, p + 1)
         == SpentValue(items[p].txId, idx, Inputs(items, |items|))
  {
    SpentBetweenSplits(items, items[p].txId, idx, p + 1, |items|);
    SpentBetweenSplits(items, items[p].txId, idx, 0, p + 1);
  }

  lemma {:induction false} ScanOutputsIsRemaining(a: Address, items: seq<TxBalance>, p: nat, n: nat)
    requires p < |items| && n <= |items[p].outputs|
    ensures ScanOutputs(a, items, p, n)
         == Remaining(a, CoinsOf(items[p], n), Inputs(items, |items|)) + MissedOutputs(a, items, p, n)
  {
    hide SpentBetween, SpentValue, Inputs;
    if n > 0 {
      ScanOutputsIsRemaining(a, items, p, n - 1);
      LaterOrMissed(items, p, n - 1);
      assert CoinsOf(items[p], n)[..n - 1] == CoinsOf(items[p], n - 1);
    }
  }

  /** In any order: the scan is what the coins keep, and what it misses. */
  lemma {:induction false} ScanIsRemaining(a: Address, items: seq<TxBalance>, n: nat)
    requires n <= |items|
    ensures Scan(a, items, n) == Remaining(a, Coins(items, n), Inputs(items, |items|)) + Missed(a, items, n)
  {
    hide ScanOutputs, MissedOutputs, CoinsOf, Inputs;
    if n > 0 {
      var t := items[n - 1];
      ScanIsRemaining(a, items, n - 1);
      ScanOutputsIsRemaining(a, items, n - 1, |t.outputs|);
      RemainingAppend(a, Coins(items, n - 1), CoinsOf(t, |t.outputs|), Inputs(items, |items|));
    }
  }

  /** Transaction p pays nothing of value to the address that is spent in p or before. */
  predicate SpentAfter(a: Address, items: seq<TxBalance>, p: nat)
    requires p < |items|
  {
    forall j, i ::
      0 <= j <= p && i in items[j].inputs && i.fundingTx == items[p].txId && i.address == a ==> i.value == 0
  }

  /** Funder before spender, as far as the address is concerned. */
  predicate InOrder(a: Address, items: seq<TxBalance>) {
    forall p :: 0 <= p < |items| ==> SpentAfter(a, items, p)
  }

  lemma {:induction false} SpentValueZero(txId: TxId, idx: nat, inputs: seq<BalanceInput>)
    ensures SpentValue(txId, idx, inputs) == 0
       <==> forall i :: i in inputs && SpendsCoin(i, txId, idx) ==> i.value == 0
  {
    if inputs != [] {
      var front, last := inputs[..|inputs| - 1], inputs[|inputs| - 1];
      assert inputs == front + [last];
      SpentValueZero(txId, idx, front);
      assert last in inputs;
    }
  }

  lemma {:induction false} MissedOutputsZero(a: Address, items: seq<TxBalance>, p: nat, n: nat)
    requires p < |items| && n <= |items[p].outputs|
    ensures MissedOutputs(a, items, p, n) == 0
       <==> forall idx :: 0 <= idx < n && items[p].outputs[idx].address == a ==>
                            SpentValue(items[p].txId, idx, Inputs(items, p + 1)) == 0
  {
    hide SpentValue, Inputs;
    if n > 0 {
      MissedOutputsZero(a, items, p, n - 1);
      SpentBetweenSplits(items, items[p].txId, n - 1, 0, p + 1);
      NoInputs(items, items[p].txId, n - 1);
    }
  }

  lemma NoInputs(items: seq<TxBalance>, txId: TxId, idx: nat)
    ensures SpentValue(txId, idx, Inputs(items, 0)) == 0
  {
  }

  lemma MissedOfOne(a: Address, items: seq<TxBalance>, p: nat)
    requires Carried(items) && p < |items|
    ensures MissedOutputs(a, items, p, |items[p].outputs|) == 0 <==> SpentAfter(a, items, p)
  {
    hide SpentValue, Inputs, Carries;
    var t, inputs := items[p], Inputs(items, p + 1);
    MissedOutputsZero(a, items, p, |t.outputs|);
    forall i
      ensures i in inputs <==> exists j :: 0 <= j <= p && i in items[j].inputs
      ensures i in inputs && i.fundingTx == t.txId ==>
                i.fundingIdx < |t.outputs| && t.outputs[i.fundingIdx].address == i.address
    {
      InputsMember(items, p + 1, i);
      if i in inputs && i.fundingTx == t.txId {
        var j :| 0 <= j <= p && i in items[j].inputs;
        CarriesMeans(items, j, p, i);
      }
    }
    forall idx | 0 <= idx < |t.outputs|
      ensures SpentValue(t.txId, idx, inputs) == 0
         <==> forall i :: i in inputs && SpendsCoin(i, t.txId, idx) ==> i.value == 0
    {
      SpentValueZero(t.txId, idx, inputs);
    }
  }

  lemma CarriesMeans(items: seq<TxBalance>, j: nat, k: nat, i: BalanceInput)
    requires Carried(items) && j < |items| && k < |items| && i in items[j].inputs && i.fundingTx == items[k].txId
    ensures i.fundingIdx < |items[k].outputs| && items[k].outputs[i.fundingIdx].address == i.address
  {
  }

  lemma {:induction false} MissedUpTo(a: Address, items: seq<TxBalance>, n: nat)
    requires Carried(items) && n <= |items|
    ensures Missed(a, items, n) == 0 <==> forall p :: 0 <= p < n ==> SpentAfter(a, items, p)
  {
    hide MissedOutputs, SpentAfter, Carried;
    if n > 0 {
      MissedUpTo(a, items, n - 1);
      MissedOfOne(a, items, n - 1);
    }
  }

  /** The scan misses nothing if and only if, in value, the address's coins are spent after they are created. */
  lemma NothingMissed(a: Address, items: seq<TxBalance>)
    requires Carried(items)
    ensures Missed(a, items, |items|) == 0 <==> InOrder(a, items)
    ensures Ordered(items) ==> InOrder(a, items)
  {
    MissedUpTo(a, items, |items|);
  }

  // ---------- unspent coins ----------

  predicate IsSpent(c: Coin, inputs: seq<BalanceInput>) {
    exists i :: i in inputs && SpendsCoin(i, c.txId, c.idx)
  }

  /** The coins that no input spends, in order. */
  function Unspent(coins: seq<Coin>, inputs: seq<BalanceInput>): seq<Coin> {
    if coins == [] then []
    else
      var c := coins[|coins| - 1];
      var before := Unspent(coins[..|coins| - 1], inputs);
      if IsSpent(c, inputs) then before else before + [c]
  }

  /** Spent at most once and for its own value, a coin keeps all or nothing. */
  lemma {:induction false} AllOrNothing(c: Coin, inputs: seq<BalanceInput>)
    requires SpentOnce(inputs)
    requires forall i :: i in inputs && SpendsCoin(i, c.txId, c.idx) ==> i.value == c.value
    ensures SpentValue(c.txId, c.idx, inputs) == if IsSpent(c, inputs) then c.value else 0
  {
    if inputs != [] {
      var front, last := inputs[..|inputs| - 1], inputs[|inputs| - 1];
      assert forall i :: i in front ==> i in inputs;
      assert last in inputs;
      AllOrNothing(c, front);
      if SpendsCoin(last, c.txId, c.idx) {
        forall i | i in front
          ensures !SpendsCoin(i, c.txId, c.idx)
        {
          var p :| 0 <= p < |front| && front[p] == i;
          assert inputs[p] == i;
        }
        assert IsSpent(c, inputs);
      } else {
        assert forall i :: i in inputs ==> i in front || i == last;
      }
    }
  }

  /** Every spend of one of these coins is for its value. */
  predicate FairlySpent(coins: seq<Coin>, inputs: seq<BalanceInput>) {
    forall c, i :: c in coins && i in inputs && SpendsCoin(i, c.txId, c.idx) ==> i.value == c.value
  }

  lemma {:induction false} RemainingIsUnspent(a: Address, coins: seq<Coin>, inputs: seq<BalanceInput>)
    requires SpentOnce(inputs) && FairlySpent(coins, inputs)
    ensures Remaining(a, coins, inputs) == ValueOf(a, Unspent(coins, inputs)) <= ValueOf(a, coins)
  {
    hide SpentOnce, SpentValue, IsSpent;
    if coins != [] {
      var front, c := coins[..|coins| - 1], coins[|coins| - 1];
      assert c in coins;
      assert forall d :: d in front ==> d in coins;
      assert FairlySpent(front, inputs);
      RemainingIsUnspent(a, front, inputs);
      assert forall i :: i in inputs && SpendsCoin(i, c.txId, c.idx) ==> i.value == c.value;
      AllOrNothing(c, inputs);
      assert (Unspent(front, inputs) + [c])[..|Unspent(front, inputs)|] == Unspent(front, inputs);
    }
  }

  lemma {:induction false} CoinMember(items: seq<TxBalance>, n: nat, c: Coin)
    requires n <= |items|
    ensures c in Coins(items, n) ==>
              exists k :: 0 <= k < n && c.txId == items[k].txId && c.idx < |items[k].outputs|
                && c.value == items[k].outputs[c.idx].value && c.address == items[k].outputs[c.idx].address
  {
    if n > 0 {
      CoinMember(items, n - 1, c);
    }
  }

  lemma CarriedIsFair(items: seq<TxBalance>)
    requires Carried(items)
    ensures FairlySpent(Coins(items, |items|), Inputs(items, |items|))
  {
    forall c, i | c in Coins(items, |items|) && i in Inputs(items, |items|) && SpendsCoin(i, c.txId, c.idx)
      ensures i.value == c.value
    {
      CoinMember(items, |items|, c);
      InputsMember(items, |items|, i);
      var k :| 0 <= k < |items| && c.txId == items[k].txId && c.idx < |items[k].outputs|
               && c.value == items[k].outputs[c.idx].value && c.address == items[k].outputs[c.idx].address;
      var j :| 0 <= j < |items| && i in items[j].inputs;
      assert Carries(i, items[k]);
    }
  }

  // ---------- the UTXO set ----------

  /** Replaying a transaction: the coins it spends go, the coins it creates come. */
  function Replay(items: seq<TxBalance>, n: nat): seq<Coin>
    requires n <= |items|
  {
    if n == 0 then []
    else Unspent(Replay(items, n - 1), items[n - 1].inputs) + CoinsOf(items[n - 1], |items[n - 1].outputs|)
  }

  lemma {:induction false} UnspentTwice(coins: seq<Coin>, a: seq<BalanceInput>, b: seq<BalanceInput>)
    ensures Unspent(Unspent(coins, a), b) == Unspent(coins, a + b)
  {
    if coins != [] {
      var front, c := coins[..|coins| - 1], coins[|coins| - 1];
      UnspentTwice(front, a, b);
      assert IsSpent(c, a + b) <==> IsSpent(c, a) || IsSpent(c, b);
      if !IsSpent(c, a) {
        assert (Unspent(front, a) + [c])[..|Unspent(front, a)|] == Unspent(front, a);
      }
    }
  }

  lemma {:induction false} UnspentAppend(c: seq<Coin>, d: seq<Coin>, inputs: seq<BalanceInput>)
    ensures Unspent(c + d, inputs) == Unspent(c, inputs) + Unspent(d, inputs)
  {
    if d == [] {
      assert c + d == c;
    } else {
      assert (c + d)[..|c + d| - 1] == c + d[..|d| - 1];
      UnspentAppend(c, d[..|d| - 1], inputs);
    }
  }

  lemma {:induction false} NoneSpent(coins: seq<Coin>, inputs: seq<BalanceInput>)
    requires forall c :: c in coins ==> !IsSpent(c, inputs)
    ensures Unspent(coins, inputs) == coins
  {
    if coins != [] {
      assert coins[|coins| - 1] in coins;
      NoneSpent(coins[..|coins| - 1], inputs);
    }
  }

  /** In a well-ordered list, nothing spends the coins of transaction n - 1 by then. */
  lemma CreatedUnspent(items: seq<TxBalance>, n: nat)
    requires 0 < n <= |items| && Ordered(items)
    ensures var t := items[n - 1];
            forall c :: c in CoinsOf(t, |t.outputs|) ==> !IsSpent(c, Inputs(items, n - 1) + t.inputs)
  {
    var t, inputs := items[n - 1], Inputs(items, n - 1);
    forall i | i in inputs + t.inputs
      ensures i.fundingTx != t.txId
    {
      InputsMember(items, n - 1, i);
    }
  }

  /** Replayed in order, the UTXO set is the coins created and never spent. */
  lemma {:induction false} ReplayIsUnspent(items: seq<TxBalance>, n: nat)
    requires n <= |items| && Ordered(items)
    ensures Replay(items, n) == Unspent(Coins(items, n), Inputs(items, n))
  {
    if n > 0 {
      var t := items[n - 1];
      var coins, inputs, created := Coins(items, n - 1), Inputs(items, n - 1), CoinsOf(t, |t.outputs|);
      ReplayIsUnspent(items, n - 1);
      UnspentTwice(coins, inputs, t.inputs);
      UnspentAppend(coins, created, inputs + t.inputs);
      CreatedUnspent(items, n);
      NoneSpent(created, inputs + t.inputs);
    }
  }

  // ---------- the main results about one address ----------

  /** A history of an address as it must be, in any order: distinct, inputs true to their outputs, complete, nothing
      spent twice. */
  ghost predicate WellFormed(a: Address, items: seq<TxBalance>) {
    && DistinctIds(items) && Carried(items) && FundedWithin(a, items)
    && SpentOnce(Inputs(items, |items|))
  }

  /** The value of the address's coins that the list creates and does not spend. */
  function UnspentValue(a: Address, items: seq<TxBalance>): nat {
    ValueOf(a, Unspent(Coins(items, |items|), Inputs(items, |items|)))
  }

  /** In any order: the quadratic scan is the unspent value, which is the signed sum, and what the scan misses. */
  lemma ScanIsUnspentAndMissed(a: Address, items: seq<TxBalance>)
    requires WellFormed(a, items)
    ensures Scan(a, items, |items|) == UnspentValue(a, items) + Missed(a, items, |items|)
    ensures Net(a, items, |items|) == UnspentValue(a, items)
  {
    ScanIsRemaining(a, items, |items|);
    CarriedIsFair(items);
    RemainingIsUnspent(a, Coins(items, |items|), Inputs(items, |items|));
    NetIsRemaining(a, items);
    InputsOrigin(items);
    NothingOutside(a, Ids(items), Inputs(items, |items|));
  }

  /** In any order the scan is at most what was paid. */
  lemma {:induction false} ScanOutputsWithinPaid(a: Address, items: seq<TxBalance>, p: nat, n: nat)
    requires p < |items| && n <= |items[p].outputs|
    ensures ScanOutputs(a, items, p, n) <= ValueOf(a, CoinsOf(items[p], n))
  {
    hide SpentBetween;
    if n > 0 {
      ScanOutputsWithinPaid(a, items, p, n - 1);
      assert CoinsOf(items[p], n)[..n - 1] == CoinsOf(items[p], n - 1);
    }
  }

  lemma {:induction false} ScanWithinPaid(a: Address, items: seq<TxBalance>, n: nat)
    requires n <= |items|
    ensures Scan(a, items, n) <= ValueOf(a, Coins(items, n))
  {
    hide ScanOutputs, CoinsOf, ValueOf;
    if n > 0 {
      ScanWithinPaid(a, items, n - 1);
      ScanOutputsWithinPaid(a, items, n - 1, |items[n - 1].outputs|);
      ValueOfAppend(a, Coins(items, n - 1), CoinsOf(items[n - 1], |items[n - 1].outputs|));
    }
  }

  /** So it is exact if and only if nothing of value is listed as spent before it is created. */
  lemma ScanExact(a: Address, items: seq<TxBalance>)
    requires WellFormed(a, items)
    ensures Scan(a, items, |items|) == UnspentValue(a, items) <==> InOrder(a, items)
  {
    hide Scan, UnspentValue, InOrder;
    ScanIsUnspentAndMissed(a, items);
    NothingMissed(a, items);
  }

  /** The quadratic scan is the address's value in the UTXO set after replaying its transactions, and their signed
      sum. */
  lemma ScanIsUtxoValue(a: Address, items: seq<TxBalance>)
    requires WellFormed(a, items) && Ordered(items)
    ensures Scan(a, items, |items|) == ValueOf(a, Replay(items, |items|)) == Net(a, items, |items|)
    ensures 0 <= Scan(a, items, |items|) <= ValueOf(a, Coins(items, |items|))
  {
    hide Scan, Net, Unspent, InOrder;
    ScanIsUnspentAndMissed(a, items);
    NothingMissed(a, items);
    CarriedIsFair(items);
    RemainingIsUnspent(a, Coins(items, |items|), Inputs(items, |items|));
    ReplayIsUnspent(items, |items|);
  }

  /** Between outputs, the running balance is the unspent value seen so far. */
  lemma ScanBetweenOutputs(a: Address, items: seq<TxBalance>, p: nat, n: nat)
    requires Ordered(items) && Carried(items) && SpentOnce(Inputs(items, |items|))
    requires p < |items| && n <= |items[p].outputs|
    ensures 0 <= Scan(a, items, p) <= ValueOf(a, Coins(items, p))
    ensures 0 <= ScanOutputs(a, items, p, n) <= ValueOf(a, CoinsOf(items[p], n))
  {
    hide Carried, SpentOnce, Remaining, SpentAfter;
    var inputs := Inputs(items, |items|);
    ScanIsRemaining(a, items, p);
    ScanOutputsIsRemaining(a, items, p, n);
    OrderedMissesNothing(a, items, p, n);
    CarriedIsFair(items);
    forall c | c in Coins(items, p) || c in CoinsOf(items[p], n)
      ensures c in Coins(items, |items|)
    {
      CoinOfPrefix(items, p, n, c);
    }
    RemainingIsUnspent(a, Coins(items, p), inputs);
    RemainingIsUnspent(a, CoinsOf(items[p], n), inputs);
  }

  lemma OrderedMissesNothing(a: Address, items: seq<TxBalance>, p: nat, n: nat)
    requires Ordered(items) && Carried(items) && p < |items| && n <= |items[p].outputs|
    ensures Missed(a, items, p) == 0 && MissedOutputs(a, items, p, n) == 0
  {
    hide Carried, Missed;
    MissedUpTo(a, items, p);
    MissedOutputsZero(a, items, p, n);
    forall idx | 0 <= idx < n && items[p].outputs[idx].address == a
      ensures SpentValue(items[p].txId, idx, Inputs(items, p + 1)) == 0
    {
      LaterOrMissed(items, p, idx);
      LaterSpendsAreAll(items, p, idx);
      SpentBetweenSplits(items, items[p].txId, idx, 0, p + 1);
      NoInputs(items, items[p].txId, idx);
    }
  }

  lemma {:induction false} CoinOfPrefix(items: seq<TxBalance>, p: nat, n: nat, c: Coin)
    requires p < |items| && n <= |items[p].outputs|
    requires c in Coins(items, p) || c in CoinsOf(items[p], n)
    ensures c in Coins(items, |items|)
  {
    if c in CoinsOf(items[p], n) {
      assert c == CoinsOf(items[p], |items[p].outputs|)[c.idx];
    }
    CoinsGrow(items, p + 1, |items|, c);
  }

  /** Part of the way through the later inputs, no more is subtracted from an output than it is worth. */
  lemma SpentSoFar(a: Address, items: seq<TxBalance>, p: nat, n: nat, j: nat, m: nat)
    requires Ordered(items) && Carried(items) && SpentOnce(Inputs(items, |items|))
    requires p < j < |items| && n < |items[p].outputs| && m <= |items[j].inputs|
    ensures SpentBetween(items, items[p].txId, n, p + 1, j) + SpentValue(items[p].txId, n, items[j].inputs[..m])
         <= items[p].outputs[n].value
  {
    hide Ordered, Carried, SpentOnce, SpentValue, Inputs, Coins;
    var t, inputs := items[p], items[j].inputs;
    var c := CoinsOf(t, |t.outputs|)[n];
    assert inputs == inputs[..m] + inputs[m..];
    SpentValueAppend(t.txId, n, inputs[..m], inputs[m..]);
    SpentBetweenGrows(items, t.txId, n, p + 1, j + 1, |items|);
    LaterSpendsAreAll(items, p, n);
    CarriedIsFair(items);
    CoinOfPrefix(items, p, |t.outputs|, c);
    AllOrNothing(c, Inputs(items, |items|));
  }

  lemma {:induction false} SpentBetweenGrows(items: seq<TxBalance>, txId: TxId, idx: nat, lo: nat, mid: nat, hi: nat)
    requires lo <= mid <= hi <= |items|
    ensures SpentBetween(items, txId, idx, lo, mid) <= SpentBetween(items, txId, idx, lo, hi)
    decreases hi
  {
    if mid < hi {
      SpentBetweenGrows(items, txId, idx, lo, mid, hi - 1);
    }
  }

  /** The running balance in the innermost loop: output n of transaction p is added, and what transactions p + 1..j
      and the first m inputs of transaction j take from it is subtracted. */
  function Running(a: Address, items: seq<TxBalance>, p: nat, n: nat, j: nat, m: nat): int
    requires p < j < |items| && n < |items[p].outputs| && m <= |items[j].inputs|
  {
    Scan(a, items, p) + ScanOutputs(a, items, p, n) + items[p].outputs[n].value
    - SpentBetween(items, items[p].txId, n, p + 1, j) - SpentValue(items[p].txId, n, items[j].inputs[..m])
  }

  /** At every step of the scan, inside the loops over later transactions and their inputs, the running balance is
      neither below zero nor above what was paid so far. */
  lemma ScanNeverNegative(a: Address, items: seq<TxBalance>, p: nat, n: nat, j: nat, m: nat)
    requires Ordered(items) && Carried(items) && SpentOnce(Inputs(items, |items|))
    requires p < j < |items| && n < |items[p].outputs| && m <= |items[j].inputs|
    requires items[p].outputs[n].address == a
    ensures 0 <= Running(a, items, p, n, j, m) <= ValueOf(a, Coins(items, p)) + ValueOf(a, CoinsOf(items[p], n + 1))
  {
    hide Ordered, Carried, SpentOnce, Scan, ScanOutputs, SpentBetween, SpentValue;
    ScanBetweenOutputs(a, items, p, n);
    SpentSoFar(a, items, p, n, j, m);
    assert CoinsOf(items[p], n + 1)[..n] == CoinsOf(items[p], n);
  }

  lemma {:induction false} CoinsGrow(items: seq<TxBalance>, n: nat, m: nat, c: Coin)
    requires n <= m <= |items| && c in Coins(items, n)
    ensures c in Coins(items, m)
    decreases m
  {
    if n < m {
      CoinsGrow(items, n, m - 1, c);
    }
  }
}

/** HistoryInspector: balances, transaction impacts and the history view, computed as the source does. */
module HistoryInspector {
  import opened Wrappers
  import opened MachineIntegers
  import opened Sequences
  import opened Ledger
  import opened WalletServer
  import opened WalletLedger
  import opened WalletCaches
  import opened WalletState
  import opened HistoryOrder
  import opened WalletBalances
  import opened HistoryRows
  import opened WalletUtxos

  datatype TxWalletImpact = TxWalletImpact(balanceDelta: I64, isP2sh: bool, fundingAmount: U64, fundingAddress: Address)

  datatype HistoryViewRow = HistoryViewRow(height: int, balanceDelta: I64, txId: TxId, balance: U64, isP2sh: bool,
                                           fundingAmount: U64, fundingAddress: Address, isFresh: bool)
  {
    function Impact(): TxWalletImpact {
      TxWalletImpact(balanceDelta, isP2sh, fundingAmount, fundingAddress)
    }
  }

  // ---------- the quadratic scan ----------

  /** One input of a later transaction: the running value after it. */
  lemma SpendStep(base: int, txId: TxId, idx: nat, inputs: seq<BalanceInput>, n: nat)
    requires n < |inputs|
    ensures Wrap(base - SpentValue(txId, idx, inputs[..n + 1]))
         == if SpendsCoin(inputs[n], txId, idx) then
              Wrap(Wrap(base - SpentValue(txId, idx, inputs[..n])) - inputs[n].value)
            else Wrap(base - SpentValue(txId, idx, inputs[..n]))
  {
    assert inputs[..n + 1][..n] == inputs[..n];
    WrapSub(base - SpentValue(txId, idx, inputs[..n]), inputs[n].value);
  }

  /** The inner two loops: every later input that spends the output is subtracted. */
  method SubtractLaterSpends(start: U64, items: seq<TxBalance>, curTx: TxId, curIdx: nat, curPos: nat)
    returns (balance: U64)
    requires curPos < |items|
    ensures balance == Wrap(start - SpentBetween(items, curTx, curIdx, curPos + 1, |items|))
  {
    hide SpentValue;
    balance := start;
    for j := curPos + 1 to |items|
      invariant balance == Wrap(start - SpentBetween(items, curTx, curIdx, curPos + 1, j))
    {
      var inputs := items[j].inputs;
      ghost var base := start - SpentBetween(items, curTx, curIdx, curPos + 1, j);
      NoneSpentYet(curTx, curIdx, inputs);
      for n := 0 to |inputs|
        invariant balance == Wrap(base - SpentValue(curTx, curIdx, inputs[..n]))
      {
        var i := inputs[n];
        SpendStep(base, curTx, curIdx, inputs, n);
        if i.fundingTx == curTx && i.fundingIdx == curIdx {
          balance := Wrap(balance - i.value);
        }
      }
      assert inputs[..|inputs|] == inputs;
    }
  }

  lemma NoneSpentYet(txId: TxId, idx: nat, inputs: seq<BalanceInput>)
    ensures SpentValue(txId, idx, inputs[..0]) == 0
  {
  }

  lemma NothingScanned(a: Address, items: seq<TxBalance>, p: nat)
    requires p < |items|
    ensures ScanOutputs(a, items, p, 0) == 0
  {
  }

  lemma OutputSkipped(a: Address, items: seq<TxBalance>, p: nat, n: nat)
    requires p < |items| && n < |items[p].outputs| && items[p].outputs[n].address != a
    ensures ScanOutputs(a, items, p, n + 1) == ScanOutputs(a, items, p, n)
  {
  }

  /** One output of the address: added, and then its later spends subtracted. */
  lemma OutputScanned(a: Address, items: seq<TxBalance>, p: nat, n: nat, base: int)
    requires p < |items| && n < |items[p].outputs| && items[p].outputs[n].address == a
    ensures Wrap(Wrap(Wrap(base + ScanOutputs(a, items, p, n)) + items[p].outputs[n].value)
                 - SpentBetween(items, items[p].txId, n, p + 1, |items|))
         == Wrap(base + ScanOutputs(a, items, p, n + 1))
  {
    hide SpentBetween;
    var sum, value := base + ScanOutputs(a, items, p, n), items[p].outputs[n].value;
    WrapAdd(sum, value);
    WrapSub(sum + value, SpentBetween(items, items[p].txId, n, p + 1, |items|));
  }

  method CalcAddressBalance(address: Address, items: seq<TxBalance>) returns (balance: U64)
    ensures balance == Wrap(Scan(address, items, |items|))
  {
    hide ScanOutputs, SpentBetween;
    balance := 0;
    for curPos := 0 to |items|
      invariant balance == Wrap(Scan(address, items, curPos))
    {
      var t := items[curPos];
      ghost var base := Scan(address, items, curPos);
      NothingScanned(address, items, curPos);
      for oidx := 0 to |t.outputs|
        invariant balance == Wrap(base + ScanOutputs(address, items, curPos, oidx))
      {
        var o := t.outputs[oidx];
        if o.address == address {
          OutputScanned(address, items, curPos, oidx, base);
          balance := Wrap(balance + o.value);
          balance := SubtractLaterSpends(balance, items, t.txId, oidx, curPos);
        } else {
          OutputSkipped(address, items, curPos, oidx);
        }
      }
    }
  }

  // ---------- the impact of one transaction ----------

  function OutputsOutside(outputs: seq<BalanceOutput>, n: nat): nat
    requires n <= |outputs|
  {
    if n == 0 then 0 else OutputsOutside(outputs, n - 1) + if outputs[n - 1].inWallet then 0 else outputs[n - 1].value
  }

  function InputsOutside(inputs: seq<BalanceInput>, n: nat): nat
    requires n <= |inputs|
  {
    if n == 0 then 0 else InputsOutside(inputs, n - 1) + if inputs[n - 1].inWallet then 0 else inputs[n - 1].value
  }

  lemma {:induction false} OutputsSplit(outputs: seq<BalanceOutput>, n: nat)
    requires n <= |outputs|
    ensures TotalOut(outputs, n) == OutputsInside(outputs, n) + OutputsOutside(outputs, n)
  {
    if n > 0 {
      OutputsSplit(outputs, n - 1);
    }
  }

  lemma {:induction false} InputsSplit(inputs: seq<BalanceInput>, n: nat)
    requires n <= |inputs|
    ensures TotalIn(inputs, n) == InputsInside(inputs, n) + InputsOutside(inputs, n)
  {
    if n > 0 {
      InputsSplit(inputs, n - 1);
    }
  }

  /** What the source's three wrapping subtractions amount to: paid outside the wallet, less funded from outside. */
  lemma FundingAmount(inIn: int, outIn: int, inOut: int, outOut: int)
    ensures Wrap(Wrap(Wrap(inIn) as int - Wrap(outIn)) as int - Wrap(inIn + inOut - (outIn + outOut)))
         == Wrap(outOut - inOut)
  {
    WrapDifference(inIn, outIn);
    WrapDifference(inIn - outIn, inIn + inOut - (outIn + outOut));
  }

  lemma WrapDifference(x: int, y: int)
    ensures Wrap(Wrap(x) as int - Wrap(y)) == Wrap(x - y)
  {
    WrapSub(x, y);
    WrapSub(Wrap(x), y);
  }

  /** The address of the last input from the wallet; none if there is none. */
  ghost predicate IsFundingAddress(inputs: seq<BalanceInput>, a: Address) {
    if exists k :: 0 <= k < |inputs| && inputs[k].inWallet then
      exists k :: 0 <= k < |inputs| && inputs[k].inWallet && a == inputs[k].address
        && forall j :: k < j < |inputs| ==> !inputs[j].inWallet
    else a == ""
  }

  lemma LastIs(inputs: seq<BalanceInput>, k: nat)
    requires k < |inputs| && inputs[k].inWallet && forall j :: k < j < |inputs| ==> !inputs[j].inWallet
    ensures IsFundingAddress(inputs, inputs[k].address)
  {
  }

  lemma FundingAddressNext(inputs: seq<BalanceInput>, n: nat, a: Address)
    requires n < |inputs| && IsFundingAddress(inputs[..n], a)
    ensures IsFundingAddress(inputs[..n + 1], if inputs[n].inWallet then inputs[n].address else a)
  {
    var before, after := inputs[..n], inputs[..n + 1];
    assert after == before + [inputs[n]];
    if inputs[n].inWallet {
      LastIs(after, n);
    } else if exists k :: 0 <= k < n && before[k].inWallet {
      var k :| 0 <= k < n && before[k].inWallet && a == before[k].address
               && forall j :: k < j < n ==> !before[j].inWallet;
      LastIs(after, k);
    }
  }

  /** The values of the inputs, or outputs, on one side of the wallet's border, 0 in place of the others. */
  function InputValues(inputs: seq<BalanceInput>, inside: bool): (r: seq<nat>)
    ensures |r| == |inputs|
    ensures forall k :: 0 <= k < |r| ==> r[k] == if inputs[k].inWallet == inside then inputs[k].value else 0
  {
    seq(|inputs|, k requires 0 <= k < |inputs| => if inputs[k].inWallet == inside then inputs[k].value else 0)
  }

  function OutputValues(outputs: seq<BalanceOutput>, inside: bool): (r: seq<nat>)
    ensures |r| == |outputs|
    ensures forall k :: 0 <= k < |r| ==> r[k] == if outputs[k].inWallet == inside then outputs[k].value else 0
  {
    seq(|outputs|, k requires 0 <= k < |outputs| => if outputs[k].inWallet == inside then outputs[k].value else 0)
  }

  lemma NoValues()
    ensures Sum([]) == 0
  {
  }

  lemma {:induction false} InputSums(inputs: seq<BalanceInput>, n: nat)
    requires n <= |inputs|
    ensures InputsInside(inputs, n) == Sum(InputValues(inputs[..n], true))
    ensures InputsOutside(inputs, n) == Sum(InputValues(inputs[..n], false))
  {
    hide Sum, InputValues;
    NoValues();
    if n > 0 {
      InputSums(inputs, n - 1);
      var i, front := inputs[n - 1], inputs[..n - 1];
      SumLast(InputValues(front, true), if i.inWallet then i.value else 0);
      SumLast(InputValues(front, false), if i.inWallet then 0 else i.value);
      assert InputValues(inputs[..n], true) == InputValues(front, true) + [if i.inWallet then i.value else 0];
      assert InputValues(inputs[..n], false) == InputValues(front, false) + [if i.inWallet then 0 else i.value];
    }
  }

  lemma {:induction false} OutputSums(outputs: seq<BalanceOutput>, n: nat)
    requires n <= |outputs|
    ensures OutputsInside(outputs, n) == Sum(OutputValues(outputs[..n], true))
    ensures OutputsOutside(outputs, n) == Sum(OutputValues(outputs[..n], false))
  {
    hide Sum, OutputValues;
    NoValues();
    if n > 0 {
      OutputSums(outputs, n - 1);
      var o, front := outputs[n - 1], outputs[..n - 1];
      SumLast(OutputValues(front, true), if o.inWallet then o.value else 0);
      SumLast(OutputValues(front, false), if o.inWallet then 0 else o.value);
      assert OutputValues(outputs[..n], true) == OutputValues(front, true) + [if o.inWallet then o.value else 0];
      assert OutputValues(outputs[..n], false) == OutputValues(front, false) + [if o.inWallet then 0 else o.value];
    }
  }

  /** The impact, read off the inputs and outputs: what comes in less what goes out of the wallet; what is paid outside
      less what is funded from outside. */
  ghost predicate ImpactReadOff(t: TxBalance, impact: TxWalletImpact) {
    && impact.balanceDelta == AsSigned(Wrap(Sum(OutputValues(t.outputs, true)) - Sum(InputValues(t.inputs, true))))
    && impact.fundingAmount == Wrap(Sum(OutputValues(t.outputs, false)) - Sum(InputValues(t.inputs, false)))
    && (impact.isP2sh <==> exists o :: o in t.outputs && o.scriptKind.PayScriptHash?)
    && IsFundingAddress(t.inputs, impact.fundingAddress)
  }

  lemma ImpactMeans(t: TxBalance, impact: TxWalletImpact)
    ensures IsImpact(t, impact) <==> ImpactReadOff(t, impact)
  {
    InputSums(t.inputs, |t.inputs|);
    OutputSums(t.outputs, |t.outputs|);
    assert t.inputs[..|t.inputs|] == t.inputs && t.outputs[..|t.outputs|] == t.outputs;
  }

  /** The impact of a transaction, in exact terms. */
  ghost predicate IsImpact(t: TxBalance, impact: TxWalletImpact) {
    && impact.balanceDelta == AsSigned(Wrap(Delta(t)))
    && (impact.isP2sh <==> exists o :: o in t.outputs && o.scriptKind.PayScriptHash?)
    && impact.fundingAmount == Wrap(OutputsOutside(t.outputs, |t.outputs|) - InputsOutside(t.inputs, |t.inputs|))
    && IsFundingAddress(t.inputs, impact.fundingAddress)
  }

  /** Below 2^63 the delta is exact, and when every input is the wallet's the funding amount is what was sent out. */
  lemma ImpactExact(t: TxBalance, impact: TxWalletImpact)
    requires IsImpact(t, impact)
    requires TotalIn(t.inputs, |t.inputs|) < TWO_63 && TotalOut(t.outputs, |t.outputs|) < TWO_63
    ensures impact.balanceDelta == Delta(t)
    ensures (forall i :: i in t.inputs ==> i.inWallet) ==>
              impact.fundingAmount == OutputsOutside(t.outputs, |t.outputs|)
  {
    OutputsSplit(t.outputs, |t.outputs|);
    InputsSplit(t.inputs, |t.inputs|);
    SignedExact(Delta(t));
    if forall i :: i in t.inputs ==> i.inWallet {
      NoneOutside(t.inputs, |t.inputs|);
      WrapExact(OutputsOutside(t.outputs, |t.outputs|));
    }
  }

  lemma {:induction false} NoneOutside(inputs: seq<BalanceInput>, n: nat)
    requires n <= |inputs| && forall i :: i in inputs ==> i.inWallet
    ensures InputsOutside(inputs, n) == 0
  {
    if n > 0 {
      NoneOutside(inputs, n - 1);
      assert inputs[n - 1] in inputs;
    }
  }

  method SumInputs(inputs: seq<BalanceInput>) returns (inside: U64, total: U64, fundingAddress: Address)
    ensures inside == Wrap(InputsInside(inputs, |inputs|)) && total == Wrap(TotalIn(inputs, |inputs|))
    ensures IsFundingAddress(inputs, fundingAddress)
  {
    hide IsFundingAddress;
    NoFundingAddress(inputs[..0]);
    inside, total, fundingAddress := 0, 0, "";
    for n := 0 to |inputs|
      invariant inside == Wrap(InputsInside(inputs, n)) && total == Wrap(TotalIn(inputs, n))
      invariant IsFundingAddress(inputs[..n], fundingAddress)
    {
      var i := inputs[n];
      FundingAddressNext(inputs, n, fundingAddress);
      if i.inWallet {
        WrapAdd(InputsInside(inputs, n), i.value);
        inside := Wrap(inside + i.value);
        fundingAddress := i.address;
      }
      WrapAdd(TotalIn(inputs, n), i.value);
      total := Wrap(total + i.value);
    }
    assert inputs[..|inputs|] == inputs;
  }

  lemma NoFundingAddress(inputs: seq<BalanceInput>)
    requires inputs == []
    ensures IsFundingAddress(inputs, "")
  {
  }

  lemma NoOutputs(outputs: seq<BalanceOutput>)
    ensures OutputsInside(outputs, 0) == TotalOut(outputs, 0) == 0
  {
  }

  lemma OutputStep(outputs: seq<BalanceOutput>, n: nat)
    requires n < |outputs|
    ensures Wrap(OutputsInside(outputs, n + 1)) ==
            if outputs[n].inWallet then Wrap(Wrap(OutputsInside(outputs, n)) + outputs[n].value)
            else Wrap(OutputsInside(outputs, n))
    ensures Wrap(TotalOut(outputs, n + 1)) == Wrap(Wrap(TotalOut(outputs, n)) + outputs[n].value)
    ensures outputs[..n + 1] == outputs[..n] + [outputs[n]]
  {
    hide Wrap;
    WrapAdd(OutputsInside(outputs, n), outputs[n].value);
    WrapAdd(TotalOut(outputs, n), outputs[n].value);
  }

  method SumOutputs(outputs: seq<BalanceOutput>) returns (inside: U64, total: U64, isP2sh: bool)
    ensures inside == Wrap(OutputsInside(outputs, |outputs|)) && total == Wrap(TotalOut(outputs, |outputs|))
    ensures isP2sh <==> exists o :: o in outputs && o.scriptKind.PayScriptHash?
  {
    hide OutputsInside, TotalOut;
    NoOutputs(outputs);
    inside, total, isP2sh := 0, 0, false;
    for n := 0 to |outputs|
      invariant inside == Wrap(OutputsInside(outputs, n)) && total == Wrap(TotalOut(outputs, n))
      invariant isP2sh <==> exists o :: o in outputs[..n] && o.scriptKind.PayScriptHash?
    {
      var o := outputs[n];
      OutputStep(outputs, n);
      if o.inWallet {
        inside := Wrap(inside + o.value);
      }
      if o.scriptKind.PayScriptHash? {
        isP2sh := true;
      }
      total := Wrap(total + o.value);
    }
    assert outputs[..|outputs|] == outputs;
  }

  method ImpactOf(t: TxBalance) returns (impact: TxWalletImpact)
    ensures IsImpact(t, impact) && ImpactReadOff(t, impact)
  {
    hide IsFundingAddress, ImpactReadOff;
    var sumFromWalletInputs, totalIn, fundingAddress := SumInputs(t.inputs);
    var sumToWalletOutputs, totalOut, isP2sh := SumOutputs(t.outputs);
    var fee := Wrap(totalIn as int - totalOut);
    var delta := AsSigned(Wrap(sumToWalletOutputs as int - sumFromWalletInputs));
    var fundingAmount := Wrap(Wrap(sumFromWalletInputs as int - sumToWalletOutputs) as int - fee);
    SubtractionsMean(t);
    impact := TxWalletImpact(delta, isP2sh, fundingAmount, fundingAddress);
    ImpactMeans(t, impact);
  }

  lemma SubtractionsMean(t: TxBalance)
    ensures var (inIn, outIn, totalIn, totalOut) :=
              (InputsInside(t.inputs, |t.inputs|), OutputsInside(t.outputs, |t.outputs|),
               TotalIn(t.inputs, |t.inputs|), TotalOut(t.outputs, |t.outputs|));
            && Wrap(Wrap(outIn) as int - Wrap(inIn)) == Wrap(Delta(t))
            && Wrap(Wrap(Wrap(inIn) as int - Wrap(outIn)) as int - Wrap(Wrap(totalIn) as int - Wrap(totalOut)))
               == Wrap(OutputsOutside(t.outputs, |t.outputs|) - InputsOutside(t.inputs, |t.inputs|))
  {
    var inIn, outIn := InputsInside(t.inputs, |t.inputs|), OutputsInside(t.outputs, |t.outputs|);
    WrapDifference(outIn, inIn);
    WrapDifference(TotalIn(t.inputs, |t.inputs|), TotalOut(t.outputs, |t.outputs|));
    OutputsSplit(t.outputs, |t.outputs|);
    InputsSplit(t.inputs, |t.inputs|);
    FundingAmount(inIn, outIn, InputsOutside(t.inputs, |t.inputs|), OutputsOutside(t.outputs, |t.outputs|));
  }

  /** The row of a history item, its balance aside. */
  ghost predicate IsRow(s: Server, wallet: seq<Address>, item: HistoryItem, row: HistoryViewRow) {
    && row.height == item.height && row.txId == item.txid
    && IsImpact(ViewOf(s, wallet, item.txid), row.Impact())
  }

  lemma RowDelta(s: Server, wallet: seq<Address>, item: HistoryItem, row: HistoryViewRow)
    requires IsRow(s, wallet, item, row)
    ensures row.balanceDelta == AsSigned(Wrap(Delta(ViewOf(s, wallet, item.txid))))
    ensures forall b: U64 :: IsRow(s, wallet, item, row.(balance := b))
  {
  }

  lemma SuffixStep(s: Server, wallet: seq<Address>, all: seq<HistoryItem>, p: nat)
    requires p < |all|
    ensures Wrap(Wrap(SuffixSum(s, wallet, all, p + 1)) + AsSigned(Wrap(Delta(ViewOf(s, wallet, all[p].txid)))))
         == Wrap(SuffixSum(s, wallet, all, p))
  {
    hide ViewOf, Delta;
    var delta := Delta(ViewOf(s, wallet, all[p].txid));
    WrapAdd(SuffixSum(s, wallet, all, p + 1), AsSigned(Wrap(delta)));
    WrapSigned(SuffixSum(s, wallet, all, p + 1), delta);
  }

  /** The reverse loop of create_history_view_rows writes the balances in place. */
  method FillBalances(s: Server, wallet: seq<Address>, all: seq<HistoryItem>, rows: array<HistoryViewRow>)
    requires rows.Length == |all| && forall k :: 0 <= k < |all| ==> IsRow(s, wallet, all[k], rows[k])
    modifies rows
    ensures AreRows(s, wallet, all, rows[..])
    ensures forall k :: 0 <= k < |all| ==> rows[k].isFresh == old(rows[k].isFresh)
  {
    hide ViewOf, IsRow, Delta, SuffixSum;
    NoSuffix(s, wallet, all);
    var balance: U64 := 0;
    var p := rows.Length;
    while p > 0
      invariant 0 <= p <= |all| && balance == Wrap(SuffixSum(s, wallet, all, p))
      invariant forall k :: 0 <= k < |all| ==>
                  IsRow(s, wallet, all[k], rows[k]) && rows[k].isFresh == old(rows[k].isFresh)
      invariant forall k :: p <= k < |all| ==> rows[k].balance == Wrap(SuffixSum(s, wallet, all, k))
    {
      p := p - 1;
      RowDelta(s, wallet, all[p], rows[p]);
      SuffixStep(s, wallet, all, p);
      balance := Wrap(balance + rows[p].balanceDelta);
      rows[p] := rows[p].(balance := balance);
    }
  }

  lemma NoSuffix(s: Server, wallet: seq<Address>, all: seq<HistoryItem>)
    ensures Wrap(SuffixSum(s, wallet, all, |all|)) == 0
  {
  }

  /** The names are, in order, the funding transactions of exactly those inputs that name one. */
  ghost predicate NamesFunders(inputs: seq<TxInput>, names: seq<TxId>) {
    exists indices :: NamesAt(inputs, |inputs|, indices, names)
  }

  ghost predicate NamesAt(inputs: seq<TxInput>, n: nat, indices: seq<nat>, names: seq<TxId>)
    requires n <= |inputs|
  {
    && Rising(indices) && |indices| == |names|
    && (forall k :: 0 <= k < |indices| ==> indices[k] < n && names[k] == inputs[indices[k]].prevTx)
    && forall k :: 0 <= k < n ==> (k in indices <==> inputs[k].prevTx != "")
  }

  lemma NamesNone(inputs: seq<TxInput>)
    ensures NamesAt(inputs, 0, [], [])
  {
  }

  lemma NamesNext(inputs: seq<TxInput>, n: nat, indices: seq<nat>, names: seq<TxId>)
    requires n < |inputs| && NamesAt(inputs, n, indices, names)
    ensures if inputs[n].prevTx != "" then NamesAt(inputs, n + 1, indices + [n], names + [inputs[n].prevTx])
            else NamesAt(inputs, n + 1, indices, names)
  {
    assert n !in indices;
    RisingNext(indices, n);
  }

  /** One name, one input. */
  lemma NamedByInput(inputs: seq<TxInput>, names: seq<TxId>, t: TxId)
    requires NamesFunders(inputs, names)
    ensures t in names <==> t != "" && exists i :: i in inputs && i.prevTx == t
  {
    hide Rising;
    var indices :| NamesAt(inputs, |inputs|, indices, names);
    if t in names {
      var n :| 0 <= n < |names| && names[n] == t;
      assert indices[n] in indices && inputs[indices[n]] in inputs;
    }
    if t != "" && exists i :: i in inputs && i.prevTx == t {
      var k :| 0 <= k < |inputs| && inputs[k].prevTx == t;
      assert k in indices;
      var n :| 0 <= n < |indices| && indices[n] == k;
      assert names[n] == t;
    }
  }

  class HistoryInspector {
    const walletState: WalletState

    constructor (walletState: WalletState)
      ensures this.walletState == walletState
    {
      this.walletState := walletState;
    }

    /** analyse_tx_balances: the transaction, with every input's funding output looked up. */
    method AnalyseTxBalances(s: Server, txid: TxId) returns (r: Result<TxBalance, WalletError>)
      requires TxCoherent(walletState.State(), s)
      modifies walletState`txid2Txhex
      ensures TxCoherent(walletState.State(), s)
      ensures r == View(s, walletState.addresses, txid)
      ensures r.Success? ==> IsAnalysis(s, walletState.addresses, txid, r.value)
      ensures r.Failure? ==> IsAnalysisError(s, txid, r.error)
    {
      hide TxCoherent, FetchTx, ReadTx, ViewInputs, IsAnalysis, IsAnalysisError;
      ViewMeans(s, walletState.addresses, txid);
      ReadsAreCurrent(walletState.State(), s, "", txid);
      var tx := walletState.GetTransaction(s, txid);
      if tx.Failure? {
        return Failure(tx.error);
      }
      var txInputs, txOutputs := tx.value.inputs, tx.value.outputs;
      var inputs: seq<BalanceInput> := [];
      ViewInputsNone(s, walletState.addresses, txInputs);
      for n := 0 to |txInputs|
        invariant TxCoherent(walletState.State(), s)
        invariant ViewInputs(s, walletState.addresses, txInputs, n) == Success(inputs)
      {
        var i := txInputs[n];
        ReadsAreCurrent(walletState.State(), s, "", i.prevTx);
        ViewInputsNext(s, walletState.addresses, txInputs, n);
        var fundingTx := walletState.GetTransaction(s, i.prevTx);
        if fundingTx.Failure? || i.prevIdx >= |fundingTx.value.outputs| {
          ViewInputsFails(s, walletState.addresses, txInputs, n + 1, |txInputs|);
          return Failure(if fundingTx.Failure? then fundingTx.error else NoSuchOutput(i.prevTx, i.prevIdx));
        }
        var o := fundingTx.value.outputs[i.prevIdx];
        var inWallet := walletState.IsInWallet(o.address);
        inputs := inputs + [BalanceInput(i.prevTx, i.prevIdx, o.value, o.address != "" && inWallet, o.address)];
      }
      var outputs: seq<BalanceOutput> := [];
      for n := 0 to |txOutputs|
        invariant |outputs| == n
        invariant forall k :: 0 <= k < n ==> outputs[k] == ViewOutput(walletState.addresses, txOutputs[k])
        invariant TxCoherent(walletState.State(), s)
      {
        var o := txOutputs[n];
        if o.address != "" {
          var inWallet := walletState.IsInWallet(o.address);
          outputs := outputs + [BalanceOutput(o.address, o.scriptKind, o.value, inWallet)];
        } else {
          outputs := outputs + [BalanceOutput("", NoPattern, o.value, false)];
        }
      }
      assert outputs == ViewOutputs(walletState.addresses, txOutputs);
      return Success(TxBalance(txid, inputs, outputs));
    }

    method CalculateTxWalletImpact(s: Server, txid: TxId) returns (r: Result<TxWalletImpact, WalletError>)
      requires TxCoherent(walletState.State(), s)
      modifies walletState`txid2Txhex
      ensures TxCoherent(walletState.State(), s)
      ensures r.Success? <==> View(s, walletState.addresses, txid).Success?
      ensures r.Success? ==> IsImpact(ViewOf(s, walletState.addresses, txid), r.value)
      ensures r.Success? ==> exists t :: IsAnalysis(s, walletState.addresses, txid, t) && ImpactReadOff(t, r.value)
    {
      hide TxCoherent, IsImpact, IsAnalysis, ImpactReadOff, IsAnalysisError;
      var t := AnalyseTxBalances(s, txid);
      if t.Failure? {
        return Failure(t.error);
      }
      var impact := ImpactOf(t.value);
      return Success(impact);
    }

    /** calculate_address_balance, over the whole history or the unconfirmed part. */
    method CalculateAddressBalance(s: Server, address: Address, unconfirmedOnly: bool)
      returns (r: Result<U64, WalletError>)
      requires TxCoherent(walletState.State(), s) && CoherentAt(walletState.State(), s, address)
      modifies walletState`txid2Txhex, walletState`address2History, walletState`address2HistoryEmpty
      ensures TxCoherent(walletState.State(), s)
      ensures forall b :: CoherentAt(old(walletState.State()), s, b) ==> CoherentAt(walletState.State(), s, b)
      ensures r.Success? <==> Analysable(s, walletState.addresses, s.histories(address), unconfirmedOnly)
      ensures r.Success? ==> r.value == Wrap(ScanOf(s, walletState.addresses, address, unconfirmedOnly))
    {
      hide TxCoherent, CoherentAt, View, ViewOf, Scan, Selected, Analysable, Views;
      var wallet := walletState.addresses;
      ReadsAreCurrent(walletState.State(), s, address, "");
      var items, _ := walletState.GetHistory(s, address);
      TxCoherentFrame(old(walletState.State()), walletState.State(), s);
      ghost var read := walletState.State();
      var balanceItems: seq<TxBalance> := [];
      NothingLookedAt(s, wallet, items, unconfirmedOnly);
      for n := 0 to |items|
        invariant TxCoherent(walletState.State(), s)
        invariant walletState.State().history == read.history && walletState.State().empty == read.empty
        invariant balanceItems == Views(s, wallet, Selected(items, n, unconfirmedOnly))
        invariant Analysable(s, wallet, items[..n], unconfirmedOnly)
      {
        LookedAt(s, wallet, items, n, unconfirmedOnly);
        if !unconfirmedOnly || items[n].height <= 0 {
          var t := AnalyseTxBalances(s, items[n].txid);
          if t.Failure? {
            CoherentFrame(read, walletState.State(), s);
            return Failure(t.error);
          }
          ViewOfView(s, wallet, items[n].txid);
          ViewsOneMore(s, wallet, Selected(items, n, unconfirmedOnly), items[n]);
          balanceItems := balanceItems + [t.value];
        }
      }
      assert items[..|items|] == items;
      CoherentFrame(read, walletState.State(), s);
      var balance := CalcAddressBalance(address, balanceItems);
      return Success(balance);
    }

    /** calculate_total_balance. */
    method CalculateTotalBalance(s: Server, unconfirmedOnly: bool) returns (r: Result<U64, WalletError>)
      requires Coherent(walletState.State(), s, walletState.addresses)
      modifies walletState`txid2Txhex, walletState`address2History, walletState`address2HistoryEmpty
      ensures Coherent(walletState.State(), s, walletState.addresses)
      ensures r.Success? <==> forall a :: a in walletState.addresses ==>
                                Analysable(s, walletState.addresses, s.histories(a), unconfirmedOnly)
      ensures r.Success? ==>
                r.value == Wrap(TotalScanOf(s, walletState.addresses, |walletState.addresses|, unconfirmedOnly))
      ensures r.Success? && !unconfirmedOnly ==>
                r.value == Wrap(TotalScan(s, walletState.addresses, |walletState.addresses|))
      ensures r.Success? && !unconfirmedOnly ==> IsUtxoValue(s, walletState.addresses, r.value)
    {
      hide TxCoherent, CoherentAt, View, ViewOf, ScanOf, TotalScan, Analysable, IsUtxoValue;
      var wallet := walletState.addresses;
      var balance: U64 := 0;
      for n := 0 to |wallet|
        invariant Coherent(walletState.State(), s, wallet)
        invariant balance == Wrap(TotalScanOf(s, wallet, n, unconfirmedOnly))
        invariant forall k :: 0 <= k < n ==> Analysable(s, wallet, s.histories(wallet[k]), unconfirmedOnly)
      {
        var a := wallet[n];
        assert a in wallet;
        var part := CalculateAddressBalance(s, a, unconfirmedOnly);
        if part.Failure? {
          return Failure(part.error);
        }
        WrapSum(TotalScanOf(s, wallet, n, unconfirmedOnly), ScanOf(s, wallet, a, unconfirmedOnly));
        balance := Wrap(balance + part.value);
      }
      TotalScanOfAll(s, wallet, |wallet|);
      UtxoValue(s, wallet);
      return Success(balance);
    }

    /** calculate_confirmed_balance: every height but 0. */
    method CalculateConfirmedBalance(s: Server) returns (r: Result<U64, WalletError>)
      requires Coherent(walletState.State(), s, walletState.addresses)
      modifies walletState
      ensures Coherent(walletState.State(), s, walletState.addresses)
      ensures IsWalletHistory(s, walletState.addresses, walletState.allHistory)
      ensures r.Success? <==> CanFold(s, walletState.addresses, walletState.allHistory, false)
      ensures r.Success? ==> r.value == Wrap(FoldAt(s, walletState.addresses, walletState.allHistory, false))
    {
      hide Coherent, TxCoherent, IsWalletHistory, Sorted, View, ViewOf, Delta, ReadHistories, Gathered, ReadTx, FetchTx;
      hide InfosOf, InfosRead, MarksOf, FreshGathered, DeltasAtZero, IsImpact, ByHash;
      hide NewestFirst, KeepsFirst, IsAnalysis, ImpactReadOff;
      var wallet := walletState.addresses;
      CoherentTx(walletState.State(), s, wallet);
      var infos := walletState.GetAllTxsSorted(s);
      ghost var all := walletState.allHistory;
      SimpleIsCurrent(old(walletState.State()), walletState.State(), s, wallet, all);
      if infos.Failure? {
        return Failure(infos.error);
      }
      ghost var items := ByHash(s, all);
      InfosByHash(s, all, infos.value);
      FoldStarts(s, wallet, items);
      var balance: U64 := 0;
      for n := 0 to |infos.value|
        invariant walletState.allHistory == all
        invariant Coherent(walletState.State(), s, wallet)
        invariant forall k :: 0 <= k < n && infos.value[k].height != 0 ==>
                    View(s, wallet, infos.value[k].tx.id).Success?
        invariant balance == Wrap(DeltasAtZero(s, wallet, items, n, false))
      {
        var info := infos.value[n];
        assert items[n] == ItemOf(info) && items[n] in items;
        if info.height != 0 {
          ghost var before := walletState.State();
          CoherentTx(before, s, wallet);
          var impact := CalculateTxWalletImpact(s, info.tx.id);
          CoherentKept(before, walletState.State(), s, wallet);
          if impact.Failure? {
            return Failure(impact.error);
          }
          UnsignedFold(s, wallet, items, n, impact.value);
          balance := Wrap(balance + impact.value.balanceDelta);
        } else {
          FoldSkips(s, wallet, items, n, false);
        }
      }
      return Success(balance);
    }

    /** unconfirmed_txs_wallet_impact: int64_t additions, as two's complement hardware does them. */
    method UnconfirmedTxsWalletImpact(s: Server) returns (r: Result<I64, WalletError>)
      requires Coherent(walletState.State(), s, walletState.addresses)
      modifies walletState
      ensures Coherent(walletState.State(), s, walletState.addresses)
      ensures IsWalletHistory(s, walletState.addresses, walletState.allHistory)
      ensures r.Success? <==> CanFold(s, walletState.addresses, walletState.allHistory, true)
      ensures r.Success? ==> r.value == AsSigned(Wrap(FoldAt(s, walletState.addresses, walletState.allHistory, true)))
    {
      hide Coherent, TxCoherent, IsWalletHistory, Sorted, View, ViewOf, Delta, ReadHistories, Gathered, ReadTx, FetchTx;
      hide InfosOf, InfosRead, MarksOf, FreshGathered, DeltasAtZero, IsImpact, ByHash;
      hide NewestFirst, KeepsFirst, IsAnalysis, ImpactReadOff;
      var wallet := walletState.addresses;
      CoherentTx(walletState.State(), s, wallet);
      var infos := walletState.GetAllTxsSorted(s);
      ghost var all := walletState.allHistory;
      SimpleIsCurrent(old(walletState.State()), walletState.State(), s, wallet, all);
      if infos.Failure? {
        return Failure(infos.error);
      }
      ghost var items := ByHash(s, all);
      InfosByHash(s, all, infos.value);
      FoldStarts(s, wallet, items);
      var balance: I64 := 0;
      for n := 0 to |infos.value|
        invariant walletState.allHistory == all
        invariant Coherent(walletState.State(), s, wallet)
        invariant forall k :: 0 <= k < n && infos.value[k].height == 0 ==>
                    View(s, wallet, infos.value[k].tx.id).Success?
        invariant balance == AsSigned(Wrap(DeltasAtZero(s, wallet, items, n, true)))
      {
        var info := infos.value[n];
        assert items[n] == ItemOf(info) && items[n] in items;
        if info.height == 0 {
          ghost var before := walletState.State();
          CoherentTx(before, s, wallet);
          var impact := CalculateTxWalletImpact(s, info.tx.id);
          CoherentKept(before, walletState.State(), s, wallet);
          if impact.Failure? {
            return Failure(impact.error);
          }
          SignedFold(s, wallet, items, n, impact.value);
          balance := AddSigned(balance, impact.value.balanceDelta);
        } else {
          FoldSkips(s, wallet, items, n, true);
        }
      }
      return Success(balance);
    }

    /** append_funding_txs. */
    method AppendFundingTxs(s: Server, txid: TxId, txids: seq<TxId>) returns (r: Result<seq<TxId>, WalletError>)
      requires TxCoherent(walletState.State(), s)
      modifies walletState`txid2Txhex
      ensures TxCoherent(walletState.State(), s)
      ensures match FetchTx(s, txid)
              case Success(tx) => r.Success? && txids <= r.value && NamesFunders(tx.inputs, r.value[|txids|..])
              case Failure(e) => r == Failure(e)
    {
      hide TxCoherent, FetchTx, ReadTx, NamesAt;
      ReadsAreCurrent(walletState.State(), s, "", txid);
      var tx := walletState.GetTransaction(s, txid);
      if tx.Failure? {
        return Failure(tx.error);
      }
      var result := txids;
      ghost var indices: seq<nat>, names: seq<TxId> := [], [];
      NamesNone(tx.value.inputs);
      for n := 0 to |tx.value.inputs|
        invariant TxCoherent(walletState.State(), s)
        invariant result == txids + names && NamesAt(tx.value.inputs, n, indices, names)
      {
        var fundingTxId := tx.value.inputs[n].prevTx;
        NamesNext(tx.value.inputs, n, indices, names);
        if fundingTxId != "" {
          result := result + [fundingTxId];
          indices, names := indices + [n], names + [fundingTxId];
        }
      }
      assert result[|txids|..] == names;
      return Success(result);
    }

    /** The bulk path's preloading: every named funding transaction is cached afterwards; it fails only where an
        analysis would. */
    method PreloadFundingTxs(s: Server, infos: seq<TransactionInfo>) returns (r: Result<(), WalletError>)
      requires TxCoherent(walletState.State(), s)
      modifies walletState`txid2Txhex
      ensures TxCoherent(walletState.State(), s)
      ensures (forall info :: info in infos ==> View(s, walletState.addresses, info.tx.id).Success?) ==> r.Success?
      ensures r.Success? ==> forall k, t :: 0 <= k < |infos| && IsFunder(s, infos[k].tx.id, t) ==>
                               s.txHexes(t) == Some(CachedHex(walletState.State(), t))
    {
      hide TxCoherent, View, FetchTx, CachedHex, NamesFunders, IsFunder;
      ghost var viewable := forall info :: info in infos ==> View(s, walletState.addresses, info.tx.id).Success?;
      var fundingTxids: seq<TxId> := [];
      for n := 0 to |infos|
        invariant TxCoherent(walletState.State(), s)
        invariant viewable ==> forall t :: t in fundingTxids ==> s.txHexes(t).Some?
        invariant forall k, t :: 0 <= k < n && IsFunder(s, infos[k].tx.id, t) ==> t in fundingTxids
      {
        assert infos[n] in infos;
        var more := AppendFundingTxs(s, infos[n].tx.id, fundingTxids);
        if viewable {
          FundersThere(s, walletState.addresses, infos[n].tx.id);
        }
        if more.Failure? {
          return Failure(more.error);
        }
        FundersNamed(s, infos[n].tx.id, more.value[|fundingTxids|..]);
        assert more.value == fundingTxids + more.value[|fundingTxids|..];
        fundingTxids := more.value;
      }
      r := walletState.LoadTxsBulk(s, fundingTxids);
    }

    /** create_history_view_rows; the rows are the result instead of being queued. */
    method CreateHistoryViewRows(s: Server, bulk: bool, flags: set<TxId>)
      returns (r: Result<seq<HistoryViewRow>, WalletError>)
      requires TxCoherent(walletState.State(), s) && (!bulk ==> Coherent(walletState.State(), s, walletState.addresses))
      modifies walletState
      ensures IsWalletHistory(s, walletState.addresses, walletState.allHistory)
      ensures NewestFirst(walletState.allHistory)
      ensures KeepsFirst(s, walletState.addresses, |walletState.addresses|, walletState.allHistory)
      ensures r.Success? <==>
                && CanFold(s, walletState.addresses, walletState.allHistory, true)
                && CanFold(s, walletState.addresses, walletState.allHistory, false)
      ensures r.Success? ==>
                && AreRows(s, walletState.addresses, ByHash(s, walletState.allHistory), r.value)
                && AreMarked(walletState.marked, walletState.allHistory, r.value)
      ensures walletState.marked == if bulk then flags else
                FreshGathered(old(walletState.State()), s, walletState.addresses, |walletState.addresses|)
    {
      hide Coherent, TxCoherent, IsWalletHistory, Sorted, View, ViewOf, Delta, ReadHistories, Gathered, ReadTx, FetchTx;
      hide InfosOf, InfosRead, IsImpact, SuffixSum, AreRows, FreshGathered, NewestFirst, KeepsFirst;
      var wallet := walletState.addresses;
      var infos: Result<seq<TransactionInfo>, WalletError>;
      if bulk {
        infos := walletState.GetAllTxsSortedBulk(s, flags);
      } else {
        infos := walletState.GetAllTxsSorted(s);
        SimpleIsCurrent(old(walletState.State()), walletState.State(), s, wallet, walletState.allHistory);
      }
      ghost var all := walletState.allHistory;
      if infos.Failure? {
        return Failure(infos.error);
      }
      InfosByHash(s, all, infos.value);
      FoldsAll(s, wallet, all, infos.value);
      if bulk {
        var loaded := PreloadFundingTxs(s, infos.value);
        if loaded.Failure? {
          return Failure(loaded.error);
        }
      }
      r := BuildRows(s, infos.value);
    }

    /** The row for every transaction, then the balances from the last row up. */
    method BuildRows(s: Server, infos: seq<TransactionInfo>) returns (r: Result<seq<HistoryViewRow>, WalletError>)
      requires TxCoherent(walletState.State(), s)
      modifies walletState`txid2Txhex
      ensures TxCoherent(walletState.State(), s)
      ensures r.Success? <==> forall info :: info in infos ==> View(s, walletState.addresses, info.tx.id).Success?
      ensures r.Success? ==> AreRows(s, walletState.addresses, ItemsOf(infos), r.value)
      ensures r.Success? ==>
                |r.value| == |infos| && forall k :: 0 <= k < |infos| ==> r.value[k].isFresh == infos[k].isFresh
    {
      hide TxCoherent, View, ViewOf, IsImpact, SuffixSum, IsAnalysis, ImpactReadOff;
      var wallet := walletState.addresses;
      var rows: seq<HistoryViewRow> := [];
      for n := 0 to |infos|
        invariant TxCoherent(walletState.State(), s)
        invariant |rows| == n
        invariant forall k :: 0 <= k < n ==>
                    IsRow(s, wallet, ItemOf(infos[k]), rows[k]) && rows[k].isFresh == infos[k].isFresh
        invariant forall k :: 0 <= k < n ==> View(s, wallet, infos[k].tx.id).Success?
      {
        assert infos[n] in infos;
        var txId := infos[n].tx.id;
        var impact := CalculateTxWalletImpact(s, txId);
        if impact.Failure? {
          return Failure(impact.error);
        }
        rows := rows + [HistoryViewRow(infos[n].height, impact.value.balanceDelta, txId, 0,
                                       impact.value.isP2sh, impact.value.fundingAmount, impact.value.fundingAddress,
                                       infos[n].isFresh)];
      }
      var column := new HistoryViewRow[|rows|](k requires 0 <= k < |rows| => rows[k]);
      FillBalances(s, wallet, ItemsOf(infos), column);
      return Success(column[..]);
    }
  }

  /** A listed transaction by its own hash. */
  function ItemOf(info: TransactionInfo): HistoryItem {
    HistoryItem(info.tx.id, info.height)
  }

  function ItemsOf(infos: seq<TransactionInfo>): (r: seq<HistoryItem>)
    ensures |r| == |infos| && forall k :: 0 <= k < |infos| ==> r[k] == ItemOf(infos[k])
  {
    seq(|infos|, k requires 0 <= k < |infos| => ItemOf(infos[k]))
  }

  /** The merged history by the transactions' own hashes. On a healthy server these are the ids they are listed under;
      the source fetches by the listed id and goes on with the hash of what it got. */
  function ByHash(s: Server, all: seq<HistoryItem>): (r: seq<HistoryItem>)
    ensures |r| == |all|
    ensures forall k :: 0 <= k < |all| && FetchTx(s, all[k].txid).Success? ==>
              r[k] == HistoryItem(FetchTx(s, all[k].txid).value.id, all[k].height)
  {
    seq(|all|, k requires 0 <= k < |all| =>
      match FetchTx(s, all[k].txid)
      case Success(tx) => HistoryItem(tx.id, all[k].height)
      case Failure(_) => all[k])
  }

  /** Every transaction is there, and those at height 0, or those not at height 0, can be analysed. */
  ghost predicate CanFold(s: Server, wallet: seq<Address>, all: seq<HistoryItem>, zero: bool) {
    && (forall x :: x in all ==> FetchTx(s, x.txid).Success?)
    && forall y :: y in ByHash(s, all) && (y.height == 0) == zero ==> View(s, wallet, y.txid).Success?
  }

  function FoldAt(s: Server, wallet: seq<Address>, all: seq<HistoryItem>, zero: bool): int {
    DeltasAtZero(s, wallet, ByHash(s, all), |all|, zero)
  }

  /** Each history item looked at can be analysed. */
  ghost predicate Analysable(s: Server, wallet: seq<Address>, items: seq<HistoryItem>, unconfirmedOnly: bool) {
    forall x :: x in items && (!unconfirmedOnly || x.height <= 0) ==> View(s, wallet, x.txid).Success?
  }

  lemma NothingLookedAt(s: Server, wallet: seq<Address>, items: seq<HistoryItem>, unconfirmedOnly: bool)
    ensures Analysable(s, wallet, items[..0], unconfirmedOnly)
    ensures Views(s, wallet, Selected(items, 0, unconfirmedOnly)) == []
  {
  }

  /** One more item of the history. */
  lemma LookedAt(s: Server, wallet: seq<Address>, items: seq<HistoryItem>, n: nat, unconfirmedOnly: bool)
    requires n < |items| && Analysable(s, wallet, items[..n], unconfirmedOnly)
    ensures var looked, fails := !unconfirmedOnly || items[n].height <= 0, View(s, wallet, items[n].txid).Failure?;
            && Selected(items, n + 1, unconfirmedOnly)
               == Selected(items, n, unconfirmedOnly) + (if looked then [items[n]] else [])
            && (!looked || !fails ==> Analysable(s, wallet, items[..n + 1], unconfirmedOnly))
            && (looked && fails ==> !Analysable(s, wallet, items, unconfirmedOnly))
  {
    hide View;
    assert items[..n + 1] == items[..n] + [items[n]];
    assert items[n] in items;
  }

  /** The rows of the history view: one per transaction, with its impact and the sum of the deltas from there down. */
  ghost predicate AreRows(s: Server, wallet: seq<Address>, items: seq<HistoryItem>, rows: seq<HistoryViewRow>) {
    && |rows| == |items|
    && forall k :: 0 <= k < |items| ==>
         IsRow(s, wallet, items[k], rows[k]) && rows[k].balance == Wrap(SuffixSum(s, wallet, items, k))
  }

  /** And their fresh flags. */
  ghost predicate AreMarked(marked: set<TxId>, items: seq<HistoryItem>, rows: seq<HistoryViewRow>) {
    |rows| == |items| && forall k :: 0 <= k < |items| ==> (rows[k].isFresh <==> items[k].txid in marked)
  }

  /** On a sound ledger with parents listed first: the value of the wallet's unspent decoded outputs. */
  ghost predicate IsUtxoValue(s: Server, wallet: seq<Address>, total: U64) {
    SoundLedger(s, wallet) && ParentsFirst(s, wallet) ==>
      forall coins :: IsUtxoSet(s, wallet, coins) ==> total == Wrap(Sum(CoinValues(coins)))
  }

  lemma UtxoValue(s: Server, wallet: seq<Address>)
    ensures IsUtxoValue(s, wallet, Wrap(TotalScan(s, wallet, |wallet|)))
  {
    hide SoundLedger, ParentsFirst, IsUtxoSet, TotalScan;
    if SoundLedger(s, wallet) && ParentsFirst(s, wallet) {
      forall coins | IsUtxoSet(s, wallet, coins)
        ensures TotalScan(s, wallet, |wallet|) == Sum(CoinValues(coins))
      {
        TotalIsUtxoSet(s, wallet, coins);
      }
    }
  }

  // ---------- the balances together ----------

  /** On a healthy server nothing fails, and the folds are those of the listed history. */
  lemma HealthyFolds(s: Server, wallet: seq<Address>, all: seq<HistoryItem>)
    requires Healthy(s, wallet) && IsWalletHistory(s, wallet, all)
    ensures ByHash(s, all) == all
    ensures forall zero :: CanFold(s, wallet, all, zero)
    ensures forall zero :: FoldAt(s, wallet, all, zero) == DeltasAtZero(s, wallet, all, |all|, zero)
    ensures forall a, flag :: a in wallet ==> Analysable(s, wallet, s.histories(a), flag)
  {
    hide View, FetchTx, DeltasAtZero;
    forall k | 0 <= k < |all|
      ensures Viewable(s, wallet, all[k].txid) && FetchTx(s, all[k].txid).Success?
    {
      assert all[k] in all;
      ViewableFetches(s, wallet, all[k].txid);
    }
    assert ByHash(s, all) == all;
  }

  lemma ViewableFetches(s: Server, wallet: seq<Address>, txid: TxId)
    requires Viewable(s, wallet, txid)
    ensures FetchTx(s, txid).Success?
  {
  }

  /** On a well-formed ledger, whatever the three balance methods return on one wallet fits together: the total is the
      confirmed balance plus the unconfirmed impact, in wrapping uint64_t, and what the scans miss, which is nothing if
      no history lists something of value as spent before it is paid. */
  lemma TotalIsConfirmedPlusImpact(s: Server, wallet: seq<Address>, all1: seq<HistoryItem>, all2: seq<HistoryItem>,
                                   total: U64, confirmed: U64, impact: I64)
    requires LedgerOk(s, wallet) && IsWalletHistory(s, wallet, all1) && IsWalletHistory(s, wallet, all2)
    requires total == Wrap(TotalScan(s, wallet, |wallet|))
    requires confirmed == Wrap(FoldAt(s, wallet, all1, false))
    requires impact == AsSigned(Wrap(FoldAt(s, wallet, all2, true)))
    ensures total == Wrap(confirmed + impact + TotalMissed(s, wallet, |wallet|))
    ensures HistoriesInOrder(s, wallet) ==> total == Wrap(confirmed + impact)
  {
    hide Healthy, IsWalletHistory, FoldAt, TotalScan, TotalMissed, DeltasAtZero, CanFold, HistoriesInOrder;
    WalletHistoryUnique(s, wallet, all1, all2);
    HealthyFolds(s, wallet, all1);
    HistoryIsMerged(s, wallet, all1);
    MachineBalancesAgree(s, wallet, all1);
  }

  lemma HistoryIsMerged(s: Server, wallet: seq<Address>, all: seq<HistoryItem>)
    requires IsWalletHistory(s, wallet, all)
    ensures Merged(s, wallet, all)
  {
  }

  // ---------- facts the methods use ----------

  lemma InfosByHash(s: Server, all: seq<HistoryItem>, infos: seq<TransactionInfo>)
    requires InfosOf(s, all, infos)
    ensures ByHash(s, all) == ItemsOf(infos)
    ensures forall x :: x in all ==> FetchTx(s, x.txid).Success?
  {
    hide FetchTx;
  }

  lemma FoldsAll(s: Server, wallet: seq<Address>, all: seq<HistoryItem>, infos: seq<TransactionInfo>)
    requires ByHash(s, all) == ItemsOf(infos) && forall x :: x in all ==> FetchTx(s, x.txid).Success?
    ensures CanFold(s, wallet, all, true) && CanFold(s, wallet, all, false)
       <==> forall info :: info in infos ==> View(s, wallet, info.tx.id).Success?
  {
    hide FetchTx, View;
    forall k | 0 <= k < |infos|
      ensures ByHash(s, all)[k] == ItemOf(infos[k]) && ByHash(s, all)[k] in ByHash(s, all)
    {
    }
  }

  lemma TxCoherentFrame(before: Caches, after: Caches, s: Server)
    requires TxCoherent(before, s) && after.txHex == before.txHex
    ensures TxCoherent(after, s)
  {
  }

  lemma CoherentFrame(before: Caches, after: Caches, s: Server)
    requires after.history == before.history && after.empty == before.empty
    ensures forall b :: CoherentAt(before, s, b) ==> CoherentAt(after, s, b)
  {
  }

  lemma CoherentTx(c: Caches, s: Server, wallet: seq<Address>)
    requires Coherent(c, s, wallet)
    ensures TxCoherent(c, s)
  {
  }

  lemma CoherentKept(before: Caches, after: Caches, s: Server, wallet: seq<Address>)
    requires Coherent(before, s, wallet) && TxCoherent(after, s)
    requires after.history == before.history && after.empty == before.empty
    ensures Coherent(after, s, wallet)
  {
  }

  lemma ViewOfView(s: Server, wallet: seq<Address>, txid: TxId)
    requires View(s, wallet, txid).Success?
    ensures ViewOf(s, wallet, txid) == View(s, wallet, txid).value
  {
  }

  lemma WrapSum(x: int, y: int)
    ensures Wrap(Wrap(x) + Wrap(y)) == Wrap(x + y)
  {
    WrapAdd(x, y);
    WrapAdd(Wrap(x), y);
  }

  /** A viewable transaction's funders are all on the server. */
  lemma FundersThere(s: Server, wallet: seq<Address>, txid: TxId)
    requires View(s, wallet, txid).Success?
    ensures FetchTx(s, txid).Success?
    ensures forall t :: IsFunder(s, txid, t) ==> s.txHexes(t).Some?
  {
  }

  /** t funds an input of the transaction. */
  ghost predicate IsFunder(s: Server, txid: TxId, t: TxId) {
    t != "" && FetchTx(s, txid).Success? && exists i :: i in FetchTx(s, txid).value.inputs && i.prevTx == t
  }

  lemma FundersNamed(s: Server, txid: TxId, names: seq<TxId>)
    requires FetchTx(s, txid).Success? && NamesFunders(FetchTx(s, txid).value.inputs, names)
    ensures forall t :: t in names <==> IsFunder(s, txid, t)
  {
    hide FetchTx, NamesFunders;
    forall t
      ensures t in names <==> IsFunder(s, txid, t)
    {
      NamedByInput(FetchTx(s, txid).value.inputs, names, t);
    }
  }

  lemma FoldStarts(s: Server, wallet: seq<Address>, items: seq<HistoryItem>)
    ensures DeltasAtZero(s, wallet, items, 0, true) == DeltasAtZero(s, wallet, items, 0, false) == 0
  {
  }

  lemma FoldSkips(s: Server, wallet: seq<Address>, items: seq<HistoryItem>, n: nat, zero: bool)
    requires n < |items| && (items[n].height == 0) != zero
    ensures DeltasAtZero(s, wallet, items, n + 1, zero) == DeltasAtZero(s, wallet, items, n, zero)
  {
    hide ViewOf, Delta;
  }

  lemma UnsignedFold(s: Server, wallet: seq<Address>, items: seq<HistoryItem>, n: nat, impact: TxWalletImpact)
    requires n < |items| && items[n].height != 0 && IsImpact(ViewOf(s, wallet, items[n].txid), impact)
    ensures Wrap(Wrap(DeltasAtZero(s, wallet, items, n, false)) + impact.balanceDelta)
         == Wrap(DeltasAtZero(s, wallet, items, n + 1, false))
  {
    hide ViewOf, Delta;
    var sum, delta := DeltasAtZero(s, wallet, items, n, false), Delta(ViewOf(s, wallet, items[n].txid));
    WrapAdd(sum, AsSigned(Wrap(delta)));
    WrapSigned(sum, delta);
  }

  lemma SignedFold(s: Server, wallet: seq<Address>, items: seq<HistoryItem>, n: nat, impact: TxWalletImpact)
    requires n < |items| && items[n].height == 0 && IsImpact(ViewOf(s, wallet, items[n].txid), impact)
    ensures AddSigned(AsSigned(Wrap(DeltasAtZero(s, wallet, items, n, true))), impact.balanceDelta)
         == AsSigned(Wrap(DeltasAtZero(s, wallet, items, n + 1, true)))
  {
    hide ViewOf, Delta;
    var sum, delta := DeltasAtZero(s, wallet, items, n, true), Delta(ViewOf(s, wallet, items[n].txid));
    WrapSigned(AsSigned(Wrap(delta)), sum);
    WrapSigned(sum, delta);
  }
}

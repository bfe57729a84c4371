/** What the servers know, and how HistoryInspector views a transaction through them. */
module WalletServer {
  import opened Wrappers
  import opened MachineIntegers
  import opened Ledger

  datatype HistoryItem = HistoryItem(txid: TxId, height: int)

  /** A decoded transaction: its own hash, the outpoints it spends, and outputs with the address extracted from each
      script ("" if none). */
  datatype DecodedTx = DecodedTx(id: TxId, inputs: seq<TxInput>, outputs: seq<TxOutput>)
  datatype TxInput = TxInput(prevTx: TxId, prevIdx: nat)
  datatype TxOutput = TxOutput(address: Address, scriptKind: ScriptKind, value: U64)

  datatype WalletError =
    | EmptyTxId
    | UnknownTx(txid: TxId)
    | Undecodable(hex: string)
    | NoSuchOutput(txid: TxId, idx: nat)

  /** The server's present answers, and libbitcoin's decoder. */
  datatype Answers = Answers(
    histories: Address -> seq<HistoryItem>,
    txHexes: TxId -> Option<string>,
    decode: string -> Option<DecodedTx>)

  /** No transaction has an empty id. */
  type Server = s: Answers | s.txHexes("") == None witness Answers(_ => [], _ => None, _ => None)

  /** RonghuaClient::getTransaction: no request is made for an empty id, and an error reply throws. */
  function FetchHex(s: Server, txid: TxId): Result<string, WalletError> {
    if txid == "" then Failure(EmptyTxId)
    else match s.txHexes(txid)
      case None => Failure(UnknownTx(txid))
      case Some(hex) => Success(hex)
  }

  function Decode(s: Server, hex: string): Result<DecodedTx, WalletError> {
    match s.decode(hex)
    case None => Failure(Undecodable(hex))
    case Some(tx) => Success(tx)
  }

  function FetchTx(s: Server, txid: TxId): Result<DecodedTx, WalletError> {
    match FetchHex(s, txid)
    case Failure(e) => Failure(e)
    case Success(hex) => Decode(s, hex)
  }

  /** The server has this transaction under this id. */
  ghost predicate OnServer(s: Server, txid: TxId, tx: DecodedTx) {
    txid != "" && s.txHexes(txid).Some? && s.decode(s.txHexes(txid).value) == Some(tx)
  }

  lemma FetchMeans(s: Server, txid: TxId)
    ensures forall tx :: FetchTx(s, txid) == Success(tx) <==> OnServer(s, txid, tx)
    ensures forall e :: FetchTx(s, txid) == Failure(e) <==> IsFetchError(s, txid, e)
  {
  }

  /** Why a transaction cannot be had. */
  ghost predicate IsFetchError(s: Server, txid: TxId, e: WalletError) {
    if txid == "" then e == EmptyTxId
    else match s.txHexes(txid)
      case None => e == UnknownTx(txid)
      case Some(hex) => s.decode(hex) == None && e == Undecodable(hex)
  }

  // ---------- analyse_tx_balances ----------

  function InWallet(wallet: seq<Address>, a: Address): bool {
    a in wallet
  }

  /** An output without an address is never the wallet's. */
  function ViewOutput(wallet: seq<Address>, o: TxOutput): BalanceOutput {
    if o.address != "" then BalanceOutput(o.address, o.scriptKind, o.value, InWallet(wallet, o.address))
    else BalanceOutput("", NoPattern, o.value, false)
  }

  /** An input, with the address and value of the output it spends. */
  function ViewInput(s: Server, wallet: seq<Address>, i: TxInput): Result<BalanceInput, WalletError> {
    match FetchTx(s, i.prevTx)
    case Failure(e) => Failure(e)
    case Success(tx) =>
      if i.prevIdx >= |tx.outputs| then Failure(NoSuchOutput(i.prevTx, i.prevIdx))
      else
        var o := tx.outputs[i.prevIdx];
        Success(BalanceInput(i.prevTx, i.prevIdx, o.value, o.address != "" && InWallet(wallet, o.address), o.address))
  }

  function ViewInputs(s: Server, wallet: seq<Address>, inputs: seq<TxInput>, n: nat)
    : (r: Result<seq<BalanceInput>, WalletError>)
    requires n <= |inputs|
    ensures r.Success? ==>
              && |r.value| == n
              && forall k :: 0 <= k < n ==> ViewInput(s, wallet, inputs[k]) == Success(r.value[k])
  {
    if n == 0 then Success([])
    else match ViewInputs(s, wallet, inputs, n - 1)
      case Failure(e) => Failure(e)
      case Success(before) =>
        match ViewInput(s, wallet, inputs[n - 1])
        case Failure(e) => Failure(e)
        case Success(i) => Success(before + [i])
  }

  lemma ViewInputsNone(s: Server, wallet: seq<Address>, inputs: seq<TxInput>)
    ensures ViewInputs(s, wallet, inputs, 0) == Success([])
  {
  }

  lemma ViewInputsNext(s: Server, wallet: seq<Address>, inputs: seq<TxInput>, n: nat)
    requires n < |inputs| && ViewInputs(s, wallet, inputs, n).Success?
    ensures ViewInputs(s, wallet, inputs, n + 1) ==
            match ViewInput(s, wallet, inputs[n])
            case Failure(e) => Failure(e)
            case Success(i) => Success(ViewInputs(s, wallet, inputs, n).value + [i])
  {
  }

  /** The first input that fails decides. */
  lemma {:induction false} ViewInputsFails(s: Server, wallet: seq<Address>, inputs: seq<TxInput>, n: nat, m: nat)
    requires n <= m <= |inputs| && ViewInputs(s, wallet, inputs, n).Failure?
    ensures ViewInputs(s, wallet, inputs, m) == ViewInputs(s, wallet, inputs, n)
    decreases m
  {
    if n < m {
      ViewInputsFails(s, wallet, inputs, n, m - 1);
    }
  }

  function ViewOutputs(wallet: seq<Address>, outputs: seq<TxOutput>): (r: seq<BalanceOutput>)
    ensures |r| == |outputs|
    ensures forall k :: 0 <= k < |outputs| ==> r[k] == ViewOutput(wallet, outputs[k])
  {
    seq(|outputs|, k requires 0 <= k < |outputs| => ViewOutput(wallet, outputs[k]))
  }

  function View(s: Server, wallet: seq<Address>, txid: TxId): (r: Result<TxBalance, WalletError>)
    ensures r.Success? ==> r.value.txId == txid
  {
    match FetchTx(s, txid)
    case Failure(e) => Failure(e)
    case Success(tx) =>
      match ViewInputs(s, wallet, tx.inputs, |tx.inputs|)
      case Failure(e) => Failure(e)
      case Success(inputs) => Success(TxBalance(txid, inputs, ViewOutputs(wallet, tx.outputs)))
  }

  // ---------- what an analysis says of the decoded transactions ----------

  /** The input keeps its outpoint, and has the value and the address of that very output of its funder. */
  ghost predicate IsInput(s: Server, wallet: seq<Address>, raw: TxInput, i: BalanceInput) {
    && i.fundingTx == raw.prevTx && i.fundingIdx == raw.prevIdx
    && (i.inWallet <==> i.address != "" && i.address in wallet)
    && exists funder :: OnServer(s, raw.prevTx, funder) && raw.prevIdx < |funder.outputs|
         && i.value == funder.outputs[raw.prevIdx].value && i.address == funder.outputs[raw.prevIdx].address
  }

  /** The output keeps its value and address, and its script kind if it has an address. */
  ghost predicate IsOutput(wallet: seq<Address>, raw: TxOutput, o: BalanceOutput) {
    && o.value == raw.value && o.address == raw.address
    && o.scriptKind == (if raw.address == "" then NoPattern else raw.scriptKind)
    && (o.inWallet <==> o.address != "" && o.address in wallet)
  }

  ghost predicate IsAnalysisOf(s: Server, wallet: seq<Address>, txid: TxId, tx: DecodedTx, t: TxBalance) {
    && t.txId == txid && |t.inputs| == |tx.inputs| && |t.outputs| == |tx.outputs|
    && (forall k :: 0 <= k < |tx.inputs| ==> IsInput(s, wallet, tx.inputs[k], t.inputs[k]))
    && forall k :: 0 <= k < |tx.outputs| ==> IsOutput(wallet, tx.outputs[k], t.outputs[k])
  }

  /** The analysis of the transaction that the server has under this id. */
  ghost predicate IsAnalysis(s: Server, wallet: seq<Address>, txid: TxId, t: TxBalance) {
    exists tx :: OnServer(s, txid, tx) && IsAnalysisOf(s, wallet, txid, tx, t)
  }

  /** The output that an input spends can be looked up. */
  ghost predicate HasSource(s: Server, raw: TxInput) {
    exists funder :: OnServer(s, raw.prevTx, funder) && raw.prevIdx < |funder.outputs|
  }

  ghost predicate IsSourceError(s: Server, raw: TxInput, e: WalletError) {
    || IsFetchError(s, raw.prevTx, e)
    || exists funder :: OnServer(s, raw.prevTx, funder) && raw.prevIdx >= |funder.outputs|
         && e == NoSuchOutput(raw.prevTx, raw.prevIdx)
  }

  /** Why it cannot be analysed: it is not to be had, or the first input without a source has this error. */
  ghost predicate IsAnalysisError(s: Server, txid: TxId, e: WalletError) {
    || IsFetchError(s, txid, e)
    || exists tx, n :: OnServer(s, txid, tx) && 0 <= n < |tx.inputs| && IsSourceError(s, tx.inputs[n], e)
         && forall k :: 0 <= k < n ==> HasSource(s, tx.inputs[k])
  }

  lemma ViewInputMeans(s: Server, wallet: seq<Address>, raw: TxInput)
    ensures forall i :: ViewInput(s, wallet, raw) == Success(i) <==> IsInput(s, wallet, raw, i)
    ensures ViewInput(s, wallet, raw).Success? <==> HasSource(s, raw)
    ensures forall e :: ViewInput(s, wallet, raw) == Failure(e) <==> IsSourceError(s, raw, e)
  {
    hide FetchTx, OnServer, IsFetchError;
    FetchMeans(s, raw.prevTx);
    OneOnServer(s, raw.prevTx);
    if FetchTx(s, raw.prevTx).Success? {
      assert OnServer(s, raw.prevTx, FetchTx(s, raw.prevTx).value);
    }
  }

  lemma OneOnServer(s: Server, txid: TxId)
    ensures forall t, u :: OnServer(s, txid, t) && OnServer(s, txid, u) ==> t == u
    ensures forall t, e :: OnServer(s, txid, t) ==> !IsFetchError(s, txid, e)
  {
  }

  lemma {:induction false} ViewInputsMeans(s: Server, wallet: seq<Address>, inputs: seq<TxInput>, n: nat)
    requires n <= |inputs|
    ensures ViewInputs(s, wallet, inputs, n).Success? <==> forall k :: 0 <= k < n ==> HasSource(s, inputs[k])
    ensures ViewInputs(s, wallet, inputs, n).Failure? ==>
              exists k :: 0 <= k < n && IsSourceError(s, inputs[k], ViewInputs(s, wallet, inputs, n).error)
                && forall j :: 0 <= j < k ==> HasSource(s, inputs[j])
  {
    hide ViewInput, HasSource, IsSourceError;
    if n > 0 {
      ViewInputsMeans(s, wallet, inputs, n - 1);
      ViewInputMeans(s, wallet, inputs[n - 1]);
    }
  }

  /** A view is an analysis, and there is no other. */
  lemma ViewMeans(s: Server, wallet: seq<Address>, txid: TxId)
    ensures View(s, wallet, txid).Success? ==> IsAnalysis(s, wallet, txid, View(s, wallet, txid).value)
    ensures View(s, wallet, txid).Failure? ==> IsAnalysisError(s, txid, View(s, wallet, txid).error)
  {
    hide FetchTx, OnServer, IsFetchError, ViewInput, ViewInputs, IsInput, HasSource, IsSourceError;
    FetchMeans(s, txid);
    if FetchTx(s, txid).Success? {
      var tx := FetchTx(s, txid).value;
      ViewInputsMeans(s, wallet, tx.inputs, |tx.inputs|);
      if View(s, wallet, txid).Success? {
        var t := View(s, wallet, txid).value;
        forall k | 0 <= k < |tx.inputs|
          ensures IsInput(s, wallet, tx.inputs[k], t.inputs[k])
        {
          ViewInputMeans(s, wallet, tx.inputs[k]);
        }
        assert IsAnalysisOf(s, wallet, txid, tx, t);
      }
    }
  }

  /** A transaction has one analysis, and it has none exactly if there is an error. */
  lemma AnalysisUnique(s: Server, wallet: seq<Address>, txid: TxId, t: TxBalance)
    requires IsAnalysis(s, wallet, txid, t)
    ensures View(s, wallet, txid) == Success(t)
  {
    hide FetchTx, OnServer, ViewInput, ViewInputs, IsInput, HasSource, IsFetchError;
    var tx :| OnServer(s, txid, tx) && IsAnalysisOf(s, wallet, txid, tx, t);
    FetchMeans(s, txid);
    forall k | 0 <= k < |tx.inputs|
      ensures HasSource(s, tx.inputs[k]) && ViewInput(s, wallet, tx.inputs[k]) == Success(t.inputs[k])
    {
      ViewInputMeans(s, wallet, tx.inputs[k]);
    }
    ViewInputsMeans(s, wallet, tx.inputs, |tx.inputs|);
    var view := View(s, wallet, txid).value;
    assert view.inputs == t.inputs;
    assert view.outputs == t.outputs;
  }

  // ---------- healthy servers ----------

  /** Every listed transaction and all its funders are there, and it hashes to the id it is listed under. */
  ghost predicate Viewable(s: Server, wallet: seq<Address>, txid: TxId) {
    View(s, wallet, txid).Success? && FetchTx(s, txid).value.id == txid
  }

  ghost predicate Healthy(s: Server, wallet: seq<Address>) {
    forall a, item :: a in wallet && item in s.histories(a) ==> Viewable(s, wallet, item.txid)
  }

  /** A transaction has one height, whichever address's history lists it. */
  ghost predicate OneHeight(s: Server, wallet: seq<Address>) {
    forall a, b, x, y ::
      a in wallet && b in wallet && x in s.histories(a) && y in s.histories(b) && x.txid == y.txid ==> x == y
  }

  function Txids(items: seq<HistoryItem>): (r: seq<TxId>)
    ensures |r| == |items|
    ensures forall k :: 0 <= k < |items| ==> r[k] == items[k].txid
  {
    seq(|items|, k requires 0 <= k < |items| => items[k].txid)
  }

  /** The view of a viewable transaction. */
  function ViewOf(s: Server, wallet: seq<Address>, txid: TxId): (t: TxBalance)
    ensures t.txId == txid
  {
    match View(s, wallet, txid)
    case Success(t) => t
    case Failure(_) => TxBalance(txid, [], [])
  }

  function Views(s: Server, wallet: seq<Address>, items: seq<HistoryItem>): (r: seq<TxBalance>)
    ensures |r| == |items|
    ensures forall k :: 0 <= k < |items| ==> r[k] == ViewOf(s, wallet, items[k].txid)
  {
    seq(|items|, k requires 0 <= k < |items| => ViewOf(s, wallet, items[k].txid))
  }
}

# binglib: verified model

binglib is a Bitcoin wallet library. This project models, in Dafny, the logic that is its own and proves what that
logic promises:

- **Wallet ledger** (`Ledger`, `WalletServer`, `WalletLedger`, `WalletBalances`, `HistoryOrder`, `HistoryRows`,
  `ConfirmedBalance`, `WalletUtxos`, `WalletCaches`, `WalletState`, `HistoryInspector`, `ExampleLedger`). The wallet
  computes its balance twice: by a quadratic scan of every address's history, and by folding signed per-transaction
  deltas, split by height, in wrapping 64-bit arithmetic. On every well-formed ledger the two agree, and both are the
  value of the wallet's unspent outputs, exactly when funders are listed before spenders. When the confirmed balance,
  the unconfirmed impact and each row of the history view are right is characterised exactly. The caches are shown
  coherent over whole runs; the bulk and the simple way of loading the history return the same list.
- **Bulk protocol** (`InputQueue`, `RonghuaClient`, `SocketStream`). For every schedule of late, reordered, repeated
  or missing replies, a bulk call that returns gives the server's answers one to one, and takes nothing but the replies
  to its own ids; late replies to ids it gave up on stay queued. The input queue delivers every
  message at most once, to its own kind of reader. The reader that re-parses its buffer rebuilds the message stream
  exactly when no single read straddles two objects.
- **Time locks** (`Transactions`, `Script`, `RedeemScript`, `TxCreators`). The locking and the unlocking transaction
  are built by separate code. A script machine with pay-to-script-hash evaluation (BIP 16) and
  OP_CHECKLOCKTIMEVERIFY (BIP 65) shows that what one locks the other can spend, and nobody can spend sooner, exactly
  when the lock time is below 2^31.
- **Coin selection** (`FundsFinder`, `PurseAccessor`). What is selected, what the transactions built from it pay in
  fees, and why three separate address searches choose the same address.

`MachineIntegers` writes out uint64_t and int64_t wrap-around; `Wrappers` holds Option and Result, `Sequences` sums and
rising indices.

Each method follows a source function and is proved against a function or predicate; the theorems are lemmas about
those. `hide` statements only keep definitions out of proofs that do not need them.

## Assumptions

- **Cryptography** is the record `Transactions.Crypto` of unspecified functions. `Lawful` asks that honest signatures
  verify and that sizes are those of the encodings (20-byte HASH160, 33- or 65-byte keys, DER signatures of at most
  72 bytes). `NoSecondPreimage`, used for the redeem script at hand only, says that no other text has its HASH160,
  which idealises that nobody knows one; `SpendsLockOrCollides` does without it. `LawsCanHold` shows that both can be
  met. The SIGHASH_ALL message is the transaction with blanked input scripts; messages of other hash types are an
  unspecified function.
- **Server and decoder** are the value `WalletServer.Server`: its present histories and transactions, and libbitcoin's
  decoding of transaction hex, with the address extracted from each output script ("" if none).
- **The well-formed ledger** is `WalletBalances.LedgerOk`: distinct non-empty wallet addresses; every listed
  transaction and all funders are on the server, and a transaction hashes to the id it is listed under; one height per
  transaction; complete histories; no outpoint spent twice; each history lists a transaction once. In what order is
  left open: `HistoriesOrdered` is the order that src/historyinspector/history_inspector.cpp:151-153 asks for, funders
  before spenders, and `HistoriesInOrder` what is needed of it. `WalletUtxos.SoundLedger` and `ParentsFirst` are the
  same conditions on the decoded transactions. Coinbase inputs are excluded by the existence of funders. That inputs
  carry the value and address of what they spend is derived. `ExampleLedger` shows that the conditions can be met.
- **Replies** are authentic: a queued reply with an id is the server's reply to the request sent with that id. Asked
  again under another id, the server may reply something else. One caller uses a client at a time:
  src/ronghuaclient/ronghua_client.cpp:103 and :109 increment and re-read the id counter in two steps.
- **The JSON parser** accepts a text that opens an object only if it is that object in white space (RFC 8259,
  sections 2, 4 and 7); nothing else is asked of it.

## Where the code differs from what one might expect

- A lock time of exactly 2^31 reads back as negative zero: the owner can spend at once with locktime 0
  (`LocktimeZeroOpens`). Above it nobody can ever spend (`LockFailsFrom2To31`).
- The comment at src/libbscript/redeem_script.cpp:27-29 speaks of seconds since 1970; a lock time below 500,000,000
  is a block height to OP_CHECKLOCKTIMEVERIFY, and the model follows that.
- A bulk refresh never resets the "known empty" flag, so an address once read as empty stays empty until its cache is
  cleared (`BulkRefreshExact`, `StaleEmptyFlag`).
- Height -1 is unconfirmed, with an unconfirmed parent; `calculate_confirmed_balance` takes every height but 0 and so
  counts it as confirmed, and `unconfirmed_txs_wallet_impact` takes height 0 only and so leaves it out. A spend at -1
  of a confirmed payment is taken off the confirmed balance (`ConfirmedTooLow`); a spend at -1 of a payment at 0 makes
  it wrap (`ConfirmedWraps`). `ConfirmedExact`, `ConfirmedExactOnChain` and `ImpactLeavesOut` say exactly when the two
  are right; `FoldWrapsExactly` with `PartCondition` says when the value wraps or falls short even as what it is.
- The scan of an address misses a spend that is listed at or before its funder, as a server may list a child in its
  mempool before its parent: the total is then too high by exactly those spends (`BalancesCompared`,
  `ChildFirstMissed`). The other two balances do not depend on the order.
- An error reply to a bulk history request reads as an empty history (`GetHistoryBulk`,
  `ErrorReadsAsEmpty`); the transaction bulk call throws.
- When amount + fee wraps, the transaction built pays out more than its inputs (`FeeExact`, `WrappedFeePaysOut`).
- Height -1 (unconfirmed, with an unconfirmed parent) sorts last in the history view, below the coins it spends, so
  the balances from there up to its parent are not UTXO values (`RowWraps`); `RowExact` says exactly which rows are,
  and `AllRowsExact` when all are.
- One socket read that ends one JSON object and starts the next blocks the reader for good (`StuckForever`,
  `LostTogether`).
- The libbitcoin overload of find_funds asks for the value of the whole list in each round, not of the point; asked
  for 0 it selects nothing, which its callers report as insufficient funds.
- The folds and the history rows fetch a transaction by its listed id and go on with the hash of what they got
  (`ByHash`); on a healthy server that is the same (`HealthyFolds`).

## Model

| member | source | states |
|---|---|---|
| Ledger.ScanIsUtxoValue | src/historyinspector/history_inspector.cpp:151-180 | On a well-formed history the quadratic scan of an address equals its value in the UTXO set after replaying the transactions in order, and the signed sum of all transactions; it lies between 0 and all that was paid. |
| Ledger.ScanIsUnspentAndMissed | src/historyinspector/history_inspector.cpp:151-180 | In whatever order a complete history lists them, the scan is the address's unspent value, which is the signed sum, plus the spends listed at or before their funder. |
| Ledger.ScanExact | src/historyinspector/history_inspector.cpp:151-153 | So the scan is exact if and only if nothing of value is listed as spent before it is paid. |
| Ledger.ScanNeverNegative | src/historyinspector/history_inspector.cpp:157-178 | At every step inside the loops, between any two inputs of any later transaction, the running uint64_t is neither below zero nor above what was paid so far. |
| Ledger.ScanBetweenOutputs | src/historyinspector/history_inspector.cpp:157-164 | Between outputs the running balance is non-negative and at most what was paid so far, transaction by transaction. |
| Ledger.AllOrNothing | src/historyinspector/history_inspector.cpp:166-174 | What later inputs subtract from an output is all of its value or nothing. |
| Ledger.LaterSpendsAreAll | src/historyinspector/history_inspector.cpp:166-174 | In a well-ordered history, searching only later transactions misses no spend. |
| Ledger.NetIsRemaining | src/historyinspector/history_inspector.cpp:108-149 | For any list of transactions in any order: the signed sum at an address is what its coins keep, less what is drawn on coins from outside the list (double sum exchanged). |
| Ledger.ReplayIsUnspent | src/historyinspector/history_inspector.cpp:151-153 | Replayed funder before spender, the UTXO set is the coins created and never spent. |
| WalletLedger.DeltaByAddress | src/historyinspector/history_inspector.cpp:193-221 | A transaction's wallet delta, by its in-wallet flags, is the sum over the wallet's addresses of what it changes at each. |
| WalletLedger.DeltasAreUnspent | src/historyinspector/history_inspector.cpp:304-309 | The deltas of any list of transactions sum to the value of the coins the list leaves the wallet, less what it draws on coins from outside. |
| WalletLedger.SumOverPart | src/walletstate/wallet_state.cpp:103-117 | A sum over part of a list in another order equals the sum over the de-duplicated whole if the rest contributes nothing. |
| WalletBalances.HistoryWellFormed | src/historyinspector/history_inspector.cpp:108-149 | On a well-formed ledger every address history, as analysed through the server, is well formed in any order: inputs true to the outputs they spend, funders inside, nothing spent twice. |
| WalletUtxos.TotalIsUtxoSet | src/historyinspector/history_inspector.cpp:47-53 | On the decoded transactions: where parents are listed first, the sum of the address scans is the value of the outputs of listed transactions to the wallet that no listed transaction names as an input by id and index, each counted once. |
| WalletUtxos.UnspentIsUtxoSet | src/historyinspector/history_inspector.cpp:115-149 | In any order: that is what the unspent value of the views is, and the unspent outputs can be listed. |
| ExampleLedger.ExampleSound | src/historyinspector/history_inspector.cpp:47-53 | A sound ledger with a spend, whose unspent outputs, however listed, are worth 40. |
| WalletUtxos.SoundIsOk | src/historyinspector/history_inspector.cpp:108-149 | A ledger that is well formed in terms of decoded transactions is well formed as analysed. |
| WalletUtxos.OkIsSound | src/historyinspector/history_inspector.cpp:108-149 | And the other way round. |
| WalletBalances.BalancesAgree | src/historyinspector/history_inspector.cpp:47-53 | The double-counting theorem: with funders listed before spenders, the sum of address scans equals the sum of the deltas of the distinct transactions, and the wallet's UTXO value. |
| WalletBalances.BalancesCompared | src/historyinspector/history_inspector.cpp:47-53 | In any order: the sum of deltas is the wallet's unspent value, and the sum of scans exceeds it by what the scans miss; they agree if and only if no history lists something of value as spent before it is paid. |
| ExampleLedger.ChildFirstMissed | src/historyinspector/history_inspector.cpp:151-153 | A well-formed ledger that lists a child before its parent: the total is 140 where 40 is unspent. |
| WalletBalances.MachineBalancesAgree | src/historyinspector/history_inspector.cpp:231-261 | In the wrapping arithmetic of the code, total balance equals confirmed balance plus unconfirmed impact plus what the scans miss, which is nothing if and only if the histories are in order. |
| WalletBalances.MachineBalancesExact | src/historyinspector/history_inspector.cpp:231-245 | If all the wallet was ever paid is below 2^63, the int64_t impact is the exact signed sum, and the uint64_t total the exact unspent value if and only if the histories are in order; the confirmed balance is the subject of ConfirmedBalance.ConfirmedExact. |
| WalletBalances.NoOverflow | src/historyinspector/history_inspector.cpp:235-243 | Below 2^63 no partial sum of the signed folds overflows int64_t, and the total stays in range, in any order. |
| WalletBalances.SelectedScanIsUtxoValue | src/historyinspector/history_inspector.cpp:55-70 | With unconfirmed_only or not, an address balance is the value of the coins that the transactions looked at create and do not spend themselves; it is never negative. |
| ConfirmedBalance.PartBalance | src/historyinspector/history_inspector.cpp:231-261 | The fold over any class of heights (above 0, 0, below 0, not 0) is the value its transactions leave the wallet less what they draw on wallet coins of the others. |
| ConfirmedBalance.ConfirmedExact | src/historyinspector/history_inspector.cpp:247-261 | Below 2^63 the confirmed balance, which counts every height but 0, is the value of the coins that transactions above height 0 leave unspent if and only if the deltas at negative heights sum to what the confirmed transactions draw on unconfirmed coins. |
| ConfirmedBalance.ConfirmedExactOnChain | src/historyinspector/history_inspector.cpp:247-261 | Where confirmed transactions spend confirmed coins: if and only if the deltas at negative heights sum to 0. |
| ConfirmedBalance.ImpactLeavesOut | src/historyinspector/history_inspector.cpp:231-245 | The unconfirmed impact, at height 0 only, is the signed sum of all unconfirmed transactions if and only if the deltas at negative heights sum to 0. |
| ConfirmedBalance.FoldWrapsExactly | src/historyinspector/history_inspector.cpp:247-261 | Taken as it is, height -1 included, the fold is the value its own transactions leave unspent if and only if they draw on no coin of height 0; otherwise it is too low and may wrap. |
| ConfirmedBalance.PartCondition | src/historyinspector/history_inspector.cpp:247-261 | A class of heights draws on nothing outside it if and only if no input at such a height spends, with a value, a wallet coin paid at another. |
| ExampleLedger.ConfirmedWraps | src/historyinspector/history_inspector.cpp:254-258 | A well-formed ledger, payment at 0 and its spend at -1, where the total is 40 and the confirmed balance 2^64 - 60. |
| ExampleLedger.ConfirmedTooLow | src/historyinspector/history_inspector.cpp:231-261 | Payment at 7, spend at -1: nothing wraps, and the confirmed balance is 40 where the confirmed coins are worth 100, the impact 0. |
| ExampleLedger.ConfirmedRight | src/historyinspector/history_inspector.cpp:231-261 | Payment at 7, spend at 0: 100 confirmed, which is right, and an impact of -60. |
| HistoryRows.RowBalance | src/historyinspector/history_inspector.cpp:304-309 | The sum of deltas from row k down is the unspent value of those rows less what they draw on coins from rows above; for row 0 it is the wallet's unspent value, in any order of the histories. |
| HistoryRows.RowExact | src/historyinspector/history_inspector.cpp:304-309 | The wrapping balance shown in row k is the UTXO value of rows k and below if and only if those rows draw on no coin from above. |
| HistoryRows.RowCondition | src/historyinspector/history_inspector.cpp:304-309 | A row draws on nothing from above if and only if no row from there down spends, with a value, a wallet coin of a row above. |
| ExampleLedger.RowWraps | src/historyinspector/history_inspector.cpp:304-309 | On the same ledger the row of the spend shows 2^64 - 60 where the UTXO value is 40. |
| HistoryRows.AllRowsExact | src/historyinspector/history_inspector.cpp:304-309 | Every row shows the exact UTXO value if and only if no transaction spends, with a value, a wallet coin of one that stands above it: one at height 0 if it is not itself, a higher one, or one at the same height with a greater id. |
| HistoryRows.SpendersFirstOnChain | src/walletstate/wallet_state.cpp:172-185 | With heights as a chain gives them, that is: no spender at its funder's height with a lower id, and none at -1 whose funder is not. |
| HistoryInspector.SubtractLaterSpends | src/historyinspector/history_inspector.cpp:166-174 | The two inner loops subtract, wrapping, exactly what later transactions take from the output. |
| HistoryInspector.CalcAddressBalance | src/historyinspector/history_inspector.cpp:154-180 | The nested loops return the wrapped scan, for any list. |
| HistoryInspector.SumInputs | src/historyinspector/history_inspector.cpp:203-210 | Sums over the inputs, wrapped: from the wallet, and in all; and the address of the last input from the wallet, none if there is none. |
| HistoryInspector.SumOutputs | src/historyinspector/history_inspector.cpp:211-218 | Sums over the outputs, wrapped: to the wallet, and in all; and whether one is pay-to-script-hash. |
| HistoryInspector.ImpactOf | src/historyinspector/history_inspector.cpp:193-229 | The delta is the wrapped difference read as signed; the funding amount is what is paid outside the wallet less what is funded from outside, modulo 2^64; the funding address is that of the last wallet input. |
| HistoryInspector.ImpactMeans | src/historyinspector/history_inspector.cpp:193-229 | The same read off as plain sums over the list of inputs and the list of outputs. |
| HistoryInspector.ImpactExact | src/historyinspector/history_inspector.cpp:220-222 | Below 2^63 the signed delta is exact, and if every input is the wallet's the funding amount is the amount sent out. |
| HistoryInspector.HistoryInspector.AnalyseTxBalances | src/historyinspector/history_inspector.cpp:108-149 | Of the decoded transaction: each input keeps its outpoint and has the value and address of that very output of its funder; each output its value and address, and its script kind if it has an address; a wallet flag holds exactly for a non-empty address of the wallet. It fails exactly with the error of the first lookup that fails, and keeps the transaction cache coherent. |
| WalletServer.AnalysisUnique | src/historyinspector/history_inspector.cpp:108-149 | A transaction has only one such analysis. |
| ExampleLedger.SecondOutputSpent | src/historyinspector/history_inspector.cpp:115-132 | A spend of output 1 is seen as such: payment of 60 away and 40 in, the 40 spent, and the total is 0. |
| HistoryInspector.HistoryInspector.CalculateTxWalletImpact | src/historyinspector/history_inspector.cpp:193-229 | Succeeds exactly when the transaction can be analysed, with the impact read off its analysis. |
| HistoryInspector.HistoryInspector.CalculateAddressBalance | src/historyinspector/history_inspector.cpp:55-70 | The wrapped scan of the whole or the unconfirmed part of the server's history of the address; fails exactly when one of the transactions looked at cannot be analysed. |
| HistoryInspector.HistoryInspector.CalculateTotalBalance | src/historyinspector/history_inspector.cpp:47-53 | The wrapped sum of these scans over all addresses, which on a sound ledger with parents listed first is the value of the wallet's unspent decoded outputs; fails exactly when one of the transactions looked at cannot be analysed. |
| HistoryInspector.HistoryInspector.CalculateConfirmedBalance | src/historyinspector/history_inspector.cpp:247-261 | On any server: fails exactly when a listed transaction is missing or one not at height 0 cannot be analysed; otherwise the wrapped sum of their deltas, each by its own hash. |
| HistoryInspector.HistoryInspector.UnconfirmedTxsWalletImpact | src/historyinspector/history_inspector.cpp:231-245 | On any server: the same at height 0, as a two's complement int64_t. |
| HistoryInspector.TotalIsConfirmedPlusImpact | src/historyinspector/history_inspector.cpp:47-53 | On a well-formed ledger whatever the three balance methods return fits together: total == confirmed + impact in uint64_t, plus what the scans miss, each method having gathered its own history. |
| HistoryInspector.HealthyFolds | src/historyinspector/history_inspector.cpp:231-261 | On a healthy server nothing fails, and folding by hash is folding by listed id. |
| HistoryInspector.FillBalances | src/historyinspector/history_inspector.cpp:304-309 | The reverse loop writes into each row the wrapped suffix sum of deltas and changes nothing else. |
| HistoryInspector.HistoryInspector.AppendFundingTxs | src/historyinspector/history_inspector.cpp:182-191 | Appends, in order, the funding ids of exactly those inputs that name one; fails exactly as the lookup of the transaction does. |
| HistoryInspector.HistoryInspector.PreloadFundingTxs | src/historyinspector/history_inspector.cpp:269-275 | Afterwards every funding transaction of the history is cached with the server's hex; it fails only where an analysis would. |
| HistoryInspector.HistoryInspector.CreateHistoryViewRows | src/historyinspector/history_inspector.cpp:263-311 | In bulk mode or not, on any server: fails exactly when a listed transaction is missing or cannot be analysed; otherwise one row per transaction, height 0 first, then by falling height and falling id, with its impact, its suffix balance and its fresh flag. |
| HistoryOrder.BeforeLaws | src/walletstate/wallet_state.cpp:172-185 | The comparator is a strict total order on (height, id) for all heights. |
| HistoryOrder.BeforeMeans | src/walletstate/wallet_state.cpp:172-185 | One item comes before another exactly if it alone is at height 0; or neither is, and it is higher; or both are at one height, and at the first position where the ids differ it has the greater character, or the other id is a proper prefix of it. |
| HistoryOrder.SortedMeans | src/walletstate/wallet_state.cpp:172-185 | A list is sorted exactly if height 0 comes first, heights never rise among the rest, and ids never rise at equal heights. |
| ExampleLedger.NewestOnTop | src/walletstate/wallet_state.cpp:172-185 | A payment at 5 and its spend at 7: the rows are 7, 5 with balances 40, 100. |
| HistoryOrder.SortedUnique | src/walletstate/wallet_state.cpp:172-185 | The sorted order of items with distinct ids is unique. |
| HistoryOrder.WalletHistoryUnique | src/walletstate/wallet_state.cpp:103-151 | There is only one sorted, de-duplicated wallet history, however gathered. |
| WalletState.SameTransactions | src/walletstate/wallet_state.cpp:153-209 | Bulk refines simple: results of the simple and the bulk call are the same list of transactions and heights; only the fresh flags may differ. |
| WalletState.WalletState.GetTransaction | src/walletstate/wallet_state.cpp:65-74 | What is cached with a non-empty hex is decoded and nothing asked; otherwise what the server has is cached and decoded; an empty or unknown id throws and changes nothing. |
| WalletState.WalletState.GetHistory | src/walletstate/wallet_state.cpp:76-101 | A known empty address reads as empty; a non-empty cached history is returned as not fresh; otherwise the server's history is returned as fresh and cached, with the empty flag if it is empty. |
| WalletState.WalletState.RefreshAllHistory | src/walletstate/wallet_state.cpp:103-117 | From any caches, gathers what reading the histories one after the other gives, each id once, with the fresh flag of its first insertion. |
| WalletState.GatheredIsMerged | src/walletstate/wallet_state.cpp:103-117 | From coherent caches that is every listed transaction of every address, once. |
| WalletState.GatheredKeepsFirst | src/walletstate/wallet_state.cpp:103-117 | Of the items with one id it is the first in the order of the addresses. |
| WalletState.FreshExactly | src/walletstate/wallet_state.cpp:76-117 | From coherent caches a transaction is fresh if and only if the first of the wallet's addresses that lists it had no cached history before the call. |
| WalletState.WalletState.RefreshAllHistoryBulk | src/walletstate/wallet_state.cpp:119-151 | From any caches, gathers every listed transaction once, the first of equal ids; overwrites the cached histories, sets empty flags where histories are empty and resets none. |
| WalletState.WalletState.SortAllHistory | src/walletstate/wallet_state.cpp:172-185 | Sorts in place: a permutation with height 0 first, then falling heights, then falling ids. |
| WalletState.WalletState.GetAllTxsSorted | src/walletstate/wallet_state.cpp:153-170 | From any caches: what was gathered, height 0 first, then by falling height and falling id, and for each item what a lookup from the original caches gives; fails only for an empty id or a failing lookup. |
| WalletState.SimpleIsCurrent | src/walletstate/wallet_state.cpp:153-170 | From coherent caches that is the sorted wallet history with the server's transactions one to one, failing exactly for one the server lacks; the caches stay coherent. |
| WalletState.WalletState.GetAllTxsSortedBulk | src/walletstate/wallet_state.cpp:188-209 | From any caches: the wallet history, height 0 first, then by falling height and falling id, and its transactions one to one; afterwards all of them are cached. |
| WalletState.WalletState.LoadTxsBulk | src/walletstate/wallet_state.cpp:279-286 | Afterwards the requested ids are cached with the server's hex; other ids are untouched. |
| WalletState.WalletState.ClearCaches | src/walletstate/wallet_state.cpp:228-233 | Empties all caches and the history. |
| WalletState.WalletState.ClearCachesForAddress | src/walletstate/wallet_state.cpp:235-239 | Forgets the history of one address and its empty flag, and the gathered history, and nothing else. |
| WalletState.HistoriesAreBulkReplies | src/walletstate/wallet_state.cpp:134-147 | What the bulk protocol returns for histories, from a server that does not change during the call, is the one-to-one result the wallet assumes. |
| WalletState.HexesAreBulkReplies | src/walletstate/wallet_state.cpp:198-207 | The same for transactions. |
| WalletCaches.EveryReadIsCurrent | src/walletstate/wallet_state.cpp:65-101 | In every run in which a changed address is cleared before it is read, every read returns what the server has at that moment. |
| WalletCaches.StepKeepsInvariant | src/walletstate/wallet_state.cpp:228-239 | Every server change, read, bulk refresh, load and clear keeps both history maps truthful about addresses not changed since they were cleared. |
| WalletCaches.BulkRefreshExact | src/walletstate/wallet_state.cpp:141-146 | After a bulk refresh an address reads as the server has it if and only if it was not known empty while it has a history now. |
| WalletCaches.StaleEmptyFlag | src/walletstate/wallet_state.cpp:141-146 | A concrete run in which the stale flag hides a payment, and the same run with a clear, in which it does not. |
| InputQueue.QueueRefinesLog | src/ronghuaclient/ronghua_input_queue.cpp:28-45 | Over every interleaving, the deque behaves as a log in which each push is taken at most once, newest match first. |
| InputQueue.ExactlyOnce | src/ronghuaclient/ronghua_input_queue.cpp:28-45 | Messages pushed are messages popped plus messages queued, as multisets. |
| InputQueue.PopGetsNewest | src/ronghuaclient/ronghua_input_queue.cpp:82-90 | A pop takes the newest untaken message of its kind: a reply goes only to its own id; notifications and the poison message only to negative ids. |
| InputQueue.TakePrefixKeepsAll | src/ronghuaclient/ronghua_input_queue.cpp:47-63 | A bulk pop loses and invents no message. |
| InputQueue.TakePrefixAnswers | src/ronghuaclient/ronghua_input_queue.cpp:52-62 | A bulk pop answers the ids in order and stops only at one without a reply. |
| InputQueue.TakesLongestPrefix | src/ronghuaclient/ronghua_input_queue.cpp:52-62 | A bulk pop gets to the first id that has no reply in the queue, and no further. |
| InputQueue.TakePrefixLeavesOthers | src/ronghuaclient/ronghua_input_queue.cpp:52-62 | A bulk pop leaves every message of other ids queued. |
| InputQueue.BulkPopIsPops | src/ronghuaclient/ronghua_input_queue.cpp:52-62 | A bulk pop is the single pops of the prefix it takes, so the results about runs cover bulk pops. |
| InputQueue.RonghuaInputQueue.Push | src/ronghuaclient/ronghua_input_queue.cpp:28-34 | Puts the message in front. |
| InputQueue.RonghuaInputQueue.PopReply | src/ronghuaclient/ronghua_input_queue.cpp:36-45 | Removes and returns the front-most match. |
| InputQueue.RonghuaInputQueue.PopReplyBulk | src/ronghuaclient/ronghua_input_queue.cpp:47-63 | The loop with its early break takes the longest answered prefix of the ids. |
| InputQueue.RonghuaInputQueue.ContainsMsgWithIdBulk | src/ronghuaclient/ronghua_input_queue.cpp:73-80 | True exactly when every id has a match. |
| RonghuaClient.RonghuaSocketClient.ReceiveResponseBulk | src/ronghuaclient/ronghua_socket_client.cpp:107-114 | The wait ends when every id has a reply or the time is over; the responses answer the ids in order, up to the first that was neither queued nor arrived; what stays queued is given exactly. |
| RonghuaClient.RonghuaSocketClient.WaitForReplies | src/ronghuaclient/ronghua_input_queue.cpp:47-51 | Messages arrive until every id has a reply or no more come; stopping early means that every id has one. |
| RonghuaClient.RonghuaClient.SendAll | src/ronghuaclient/ronghua_client.cpp:131-139 | Every request goes out, in order, under an id never used before. |
| RonghuaClient.RonghuaClient.DoGetBulk | src/ronghuaclient/ronghua_client.cpp:222-243 | One round takes the replies to its own ids up to the first that has not arrived and appends their values, or throws at one of them; every other message queued or arrived stays. |
| RonghuaClient.RonghuaClient.GetBulk | src/ronghuaclient/ronghua_client.cpp:209-220 | For every schedule and for a server whose replies may change from round to round: the schedule decides the rounds, each under ids never used before; value i of a returned result is read from the reply to the id that request i was sent with in its round; a call still waiting has used at most as many rounds as it has values plus silent rounds; a throw is at a reply its last round took; all messages queued or arrived are taken so or still queued. |
| RonghuaClient.TakenByIds | src/ronghuaclient/ronghua_client.cpp:209-220 | What is taken is, one to one with the requests answered, the reply to the id of each one's own round. |
| RonghuaClient.IdsSent | src/ronghuaclient/ronghua_client.cpp:209-243 | And that id is one the request was sent with. |
| RonghuaClient.StaleStays | src/ronghuaclient/ronghua_client.cpp:209-220 | Notifications, replies to ids from before the call, and late or repeated replies to ids that a round of the call itself gave up on keep their count: they stay queued and are never taken. |
| RonghuaClient.TakenOnce | src/ronghuaclient/ronghua_client.cpp:209-220 | All ids that a call takes replies to differ and rise: no id is answered twice. |
| RonghuaClient.RoundsUnique | src/ronghuaclient/ronghua_client.cpp:209-220 | Two calls that see the same arrivals go through the same rounds. |
| RonghuaClient.RoundsProgress | src/ronghuaclient/ronghua_client.cpp:209-220 | Every round in which the first outstanding id is answered makes progress. |
| RonghuaClient.GetTransactionBulk | src/ronghuaclient/ronghua_client.cpp:209-243 | Chunks of 100: a returned result is the server's answers, to the ids taken, one to one; a throw is one of its error or malformed replies. |
| RonghuaClient.GetHistoryBulk | src/ronghuaclient/ronghua_client.cpp:117-152 | Chunks of 25: throws at a malformed reply only; the result is the server's answers one to one if and only if none of the replies taken is an error; an error reads as an empty history. |
| RonghuaClient.ErrorReadsAsEmpty | src/ronghuaclient/ronghua_client.cpp:141-150 | A concrete call: one request, answered with an error, returns one empty history. |
| SocketStream.PrefixIsInside | src/ronghuaclient/ronghua_socket_client.cpp:144-153 | No proper prefix of a JSON object is a complete object. |
| SocketStream.ReassembledExactly | src/ronghuaclient/ronghua_socket_client.cpp:137-156 | For every chunking: the stream is pushed message by message, in order and complete, if and only if no read holds the end of one object and the start of the next. |
| SocketStream.CrossingIsFatal | src/ronghuaclient/ronghua_socket_client.cpp:142-154 | The first read that crosses objects i and i + 1 leaves at most i messages delivered, ever. |
| SocketStream.LostTogether | src/ronghuaclient/ronghua_socket_client.cpp:142-154 | The stream {}{} in one read delivers nothing; cut between the objects it delivers both (DeliveredApart). |
| SocketStream.StuckForever | src/ronghuaclient/ronghua_socket_client.cpp:145-153 | Once the buffer has overrun an object nothing is ever pushed again. |
| SocketStream.RonghuaSocketReader.DoRead | src/ronghuaclient/ronghua_socket_client.cpp:137-156 | One read: the buffer and the queue afterwards. |
| Transactions.BlankingForgetsScripts | src/locktx/online_lock_tx_creator.cpp:147-159 | Two transactions have the same SIGHASH_ALL copy if and only if they differ in input scripts at most. |
| Transactions.BlankingCommits | src/locktx/online_lock_tx_creator.cpp:147-159 | The copy also fixes which input is signed and for which script. |
| Script.ParseSerialise | src/libbscript/redeem_script.cpp:38-42 | Parsing undoes serialising, for every list of operations. |
| RedeemScript.WriteFourBytesLittleEndian | src/libbscript/redeem_script.cpp:34-36 | The buffer holds the lock time, least significant byte first. |
| RedeemScript.ToPayKeyHashPatternWithLock | src/libbscript/redeem_script.cpp:31-43 | The operations of the redeem script. |
| RedeemScript.RedeemScriptBytes | src/libbscript/redeem_script.cpp:31-43 | The bytes of the redeem script: a push of the four lock time bytes, 0xb1, 0x75, a push of the key, 0xac. |
| RedeemScript.PayToScriptHashBytes | src/locktx/online_lock_tx_creator.cpp:118-125 | The bytes of the output script of a lock. |
| RedeemScript.LockTimeReadBack | src/libbscript/redeem_script.cpp:34-38 | The four bytes read as a script number are the lock time below 2^31, and 2^31 minus it from there on. |
| RedeemScript.LockTimeMeaning | src/libbscript/redeem_script.cpp:38-39 | Exactly which transactions OP_CHECKLOCKTIMEVERIFY lets through, for every 32-bit lock time. |
| RedeemScript.TimeLockInjective | src/libbscript/redeem_script.cpp:31-43 | Different keys or lock times give different redeem scripts. |
| RedeemScript.SpendsLockOrCollides | src/locktx/online_lock_tx_creator.cpp:118-125 | Whatever the hash function: a locked output is spent by a signed redeem script that passes the lock time check and by nothing else, unless the spend presents another text with the same HASH160. |
| RedeemScript.SpendsLockExactly | src/locktx/online_lock_tx_creator.cpp:118-125 | So, if nobody knows such a text, for any script sig and any transaction: the locked output is spent if and only if pushes present the redeem script over a good signature of the locked key and the lock time check passes. |
| RedeemScript.NoEarlySpend | src/locktx/online_lock_tx_creator.cpp:118-125 | Below 2^31, whoever spends has a locktime of the same class that has reached the lock time, a non-final sequence and a signature of the locked key. |
| RedeemScript.LockFailsFrom2To31 | src/libbscript/redeem_script.cpp:34-38 | From 2^31 on a spend is possible only at exactly 2^31, with a height-class locktime. |
| TxCreators.SignInputs | src/locktx/online_lock_tx_creator.cpp:147-159 | After the signing loop every input satisfies the pay-to-key-hash script of the key, against the final transaction. |
| TxCreators.SpendsKeyHash | src/p2pkhtx/online_p2pkh_tx_creator.cpp:154-165 | An input with an endorsement and the key spends the key's output if and only if the signature is good. |
| TxCreators.SpendsKeyHashExactly | src/p2pkhtx/online_p2pkh_tx_creator.cpp:133-165 | For any script sig: a key's output is spent if and only if a key with its hash is left on top of a good signature by that key. |
| TxCreators.PayToKeyHashBytes | src/p2pkhtx/online_p2pkh_tx_creator.cpp:133-165 | The bytes of the pay-to-key-hash script. |
| TxCreators.BuildAndSign | src/p2pkhtx/online_p2pkh_tx_creator.cpp:133-165 | The transaction spends the points in order, pays output 0, returns a positive refund only, and every input is validly signed. |
| TxCreators.ConstructTimeLockingTx | src/locktx/online_lock_tx_creator.cpp:97-159 | Each error case, and otherwise the signed transaction whose output 0 is locked to the key until the lock time. |
| TxCreators.ConstructKeyHashTx | src/p2pkhtx/online_p2pkh_tx_creator.cpp:100-168 | Each error case, and otherwise the signed transaction that pays the target. |
| TxCreators.FeeConserved | src/locktx/online_lock_tx_creator.cpp:110-143 | Whatever wraps, inputs minus outputs is the fee plus what the sum of the inputs lost less what amount + fee lost, in multiples of 2^64; there is a refund output exactly when something is left. |
| TxCreators.FeeExact | src/locktx/online_lock_tx_creator.cpp:110-143 | Where the inputs' sum fits 64 bits, that is the fee if amount + fee does not wrap and the fee minus 2^64 if it does. |
| Transactions.OutputTotalIsSum | src/locktx/online_lock_tx_creator.cpp:110-143 | What the outputs are worth is the sum of the list of their values. |
| TxCreators.LockFromPoints | src/locktx/online_lock_tx_creator.cpp:46-66 | Each error case with its figures, a point list worth 2^64 or more included; success in all other cases, spending the shortest sufficient prefix at the fee of FeeConserved. |
| TxCreators.WrappedFeePaysOut | src/locktx/online_lock_tx_creator.cpp:46-66 | A concrete call: amount 2^64 - 10 and fee 20 over one point of 100 succeed and pay out 2^64 - 20 more than is spent. |
| TxCreators.LockFromUtxos | src/locktx/online_lock_tx_creator.cpp:80-95 | Each error case with its figures, for every list of Electrum UTXOs; in all other cases the transaction spends, in order and each once, exactly the listed outputs that have a value, none twice if none is listed twice. |
| TxCreators.PayFromPoints | src/p2pkhtx/online_p2pkh_tx_creator.cpp:49-69 | The same for a payment to a key hash address. |
| TxCreators.PayFromUtxos | src/p2pkhtx/online_p2pkh_tx_creator.cpp:83-98 | The same for a payment to a key hash address. |
| TxCreators.ConstructUnlockTx | src/unlocktx/offline_unlock_tx_creator.cpp:41-93 | Both error cases, and otherwise the transaction that presents the redeem script over a signature for it. |
| TxCreators.HonestUnlock | src/unlocktx/offline_unlock_tx_creator.cpp:83-90 | Such a script sig opens the lock if and only if the lock time check passes. |
| TxCreators.UnlocksOnlyItsOwn | src/unlocktx/offline_unlock_tx_creator.cpp:78-90 | It opens no lock of another key or another lock time. |
| TxCreators.LockThenUnlock | src/unlocktx/offline_unlock_tx_creator.cpp:48-92 | With the same key and lock time, the unlocking transaction spends output 0 of the locking one if and only if the lock time is below 2^31. |
| TxCreators.LocktimeZeroOpens | src/libbscript/redeem_script.cpp:34-38 | An owner who signs at once with locktime 0 opens a lock if and only if it is until 0 or until exactly 2^31. |
| FundsFinder.FindFundsInPoints | src/libbfunds/funds_finder.cpp:27-43 | The first points whose sum is enough, or none, and the sum reached; throws when something is needed and the list is worth 2^64 or more. |
| FundsFinder.FindFundsInUtxos | src/libbfunds/funds_finder.cpp:45-62 | All outputs that have a value, each once and in order, under their own outpoints; or none if their wrapped sum is short. |
| FundsFinder.TakenDistinct | src/libbfunds/funds_finder.cpp:45-62 | Nothing is taken twice if no output is listed twice. |
| FundsFinder.FoundExactly | src/libbfunds/funds_finder.cpp:27-43 | On every list: throws exactly in that case; otherwise funds are found exactly when the address holds enough, the prefix taken is the shortest, and else the sum reported is all it holds. |
| FundsFinder.PrefixTotalIsSum | src/libbfunds/funds_finder.cpp:27-62 | What a prefix of the points is worth is the sum of the list of its values. |
| FundsFinder.TotalOfPositive | src/libbfunds/funds_finder.cpp:49-57 | Skipping outputs without value loses nothing. |
| PurseAccessor.ObtainFunds | src/libbfunds/purse_accessor.cpp:30-40 | The shortest prefix of the address's points that covers the request, with its points and exact total; or no points and the total of all, if that is too little; throws exactly if something is requested and the points are worth 2^64 or more. |
| PurseAccessor.LookForFunds | src/libbfunds/purse_accessor.cpp:42-54 | Each address offers what its points give in that sense; the result is the first offer that covers the request or throws, or else the last of those that offer most, or without addresses nothing. |
| PurseAccessor.LookForFundsByBalance | src/libbfunds/purse_accessor.cpp:56-80 | The same, where an address whose unsigned balance is below the request offers that balance without asking for points; the balances of the addresses asked about, up to the one chosen early or all, are recorded and no others. |
| PurseAccessor.LookForAddressWithBalance | src/libbfunds/purse_accessor.cpp:92-107 | The same by a balance map: the address chosen with its entry; throws exactly at an address without an entry before any that covers the request. |
| PurseAccessor.SearchUnique | src/libbfunds/purse_accessor.cpp:42-107 | What a search may return is unique: its result, or its exception, is determined by the offers. |
| PurseAccessor.SearchesAgree | src/libbfunds/purse_accessor.cpp:42-107 | On consistent data none of the searches throws, all three return the same address, and the two that fetch points return the same points and sum. |

## Left out

- Sockets, TLS, threads and time: the 1500 ms wait is whatever the schedule lets arrive; a blocked single pop is a step that is not enabled.
- JSON field mapping, the single-request client methods, subscriptions, progress and error callbacks, the result queues and the unlocking information text: plumbing or user interface.
- SHA-256, RIPEMD-160, secp256k1, base58, key import and HD derivation: unspecified functions, or arguments already decoded.
- libbitcoin's transaction serialisation and is_valid checks. Its points_value is not part of this model: value() is taken to add with an overflow check and to throw past 2^64.
- Script machine: opcodes the library's scripts do not use (any of them fails), the 10,000-byte and 201-opcode limits, FindAndDelete and OP_CODESEPARATOR, and the MINIMALDATA relay rule, which a four-byte lock time below 2^23 would not meet.
- The fresh flags of the bulk path: the JSON reader leaves them unset, so they are a parameter of which nothing is known.
- HistoryInspector.HistoryInspector.CreateHistoryViewRows: which of several lookup errors is thrown is not stated.
- unconfirmed_only balances: the filter drops the funding side of confirmed outputs, so they match no other balance; what they are is SelectedScanIsUtxoValue.
- Output parameters: get_history and the bulk calls append to vectors their callers pass in empty; the model returns new lists. C++ maps that insert a default on lookup are modelled as maps that do not, which no caller can see.
- std::sort and std::set: an insertion sort and a list without repetition; the sorted result is unique, so the algorithm does not matter.
- The id counter's 32-bit overflow after 2^31 requests, and undecodable transaction ids in decode_hash.
- RonghuaClient.RonghuaClient.GetBulk: the source's loop has no bound; the model runs it against a finite schedule of any length and says how far it gets.
- Segwit, timestamps and block headers: the code does not handle them here.

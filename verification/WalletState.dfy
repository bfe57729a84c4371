/** WalletState: the wallet's addresses, its caches, and the sorted history of all transactions. */
module WalletState {
  import opened Wrappers
  import opened Ledger
  import opened WalletServer
  import opened WalletCaches
  import opened HistoryOrder
  import Protocol = RonghuaClient

  datatype TransactionInfo = TransactionInfo(tx: DecodedTx, height: int, isFresh: bool)

  /** The fresh flags, by listed id. */
  ghost predicate MarksOf(marked: set<TxId>, items: seq<HistoryItem>, infos: seq<TransactionInfo>) {
    |infos| == |items| && forall k :: 0 <= k < |items| ==> (infos[k].isFresh <==> items[k].txid in marked)
  }

  /** The transactions of a history, one to one. */
  ghost predicate InfosOf(s: Server, items: seq<HistoryItem>, infos: seq<TransactionInfo>) {
    && |infos| == |items|
    && forall k :: 0 <= k < |items| ==>
         FetchTx(s, items[k].txid) == Success(infos[k].tx) && infos[k].height == items[k].height
  }

  /** The same, read through caches. */
  ghost predicate InfosRead(c: Caches, s: Server, items: seq<HistoryItem>, infos: seq<TransactionInfo>) {
    && |infos| == |items|
    && forall k :: 0 <= k < |items| ==>
         && !Unreadable(c, s, items[k])
         && ReadTx(c, s, items[k].txid).1 == Success(infos[k].tx) && infos[k].height == items[k].height
  }

  /** An item without an id, or whose transaction cannot be looked up. */
  ghost predicate Unreadable(c: Caches, s: Server, x: HistoryItem) {
    x.txid == "" || ReadTx(c, s, x.txid).1.Failure?
  }

  /** RonghuaClient::getHistoryBulk, which answers one to one. */
  function HistoriesInBulk(s: Server, addresses: seq<Address>): seq<seq<HistoryItem>> {
    seq(|addresses|, k requires 0 <= k < |addresses| => s.histories(addresses[k]))
  }

  /** RonghuaClient::getTransactionBulk, which answers one to one or throws. */
  function HexesInBulk(s: Server, txids: seq<TxId>): (r: Result<seq<string>, WalletError>)
    ensures r.Success? ==>
              |r.value| == |txids| && forall k :: 0 <= k < |txids| ==> s.txHexes(txids[k]) == Some(r.value[k])
    ensures r.Failure? <==> exists t :: t in txids && s.txHexes(t).None?
  {
    if txids == [] then Success([])
    else
      var front, last := txids[..|txids| - 1], txids[|txids| - 1];
      assert txids == front + [last];
      match HexesInBulk(s, front)
      case Failure(e) => Failure(e)
      case Success(hexes) =>
        match s.txHexes(last)
        case None => Failure(UnknownTx(last))
        case Some(hex) => Success(hexes + [hex])
  }

  /** What a server that does not change during the call replies to a history request and to a transaction request. */
  function HistoryReplies(s: Server): Protocol.Answering<Address, seq<HistoryItem>> {
    (id, a) => Protocol.Answer(s.histories(a))
  }

  function TxReplies(s: Server): Protocol.Answering<TxId, string> {
    (id, txid) => match s.txHexes(txid)
      case Some(hex) => Protocol.Answer(hex)
      case None => Protocol.ErrorReply("unknown transaction")
  }

  /** What the bulk protocol is proved to return is what the wallet assumes of it: one answer per request, in order. */
  lemma HistoriesAreBulkReplies(s: Server, ids: seq<int>, addresses: seq<Address>, values: seq<seq<HistoryItem>>)
    requires |ids| == |addresses|
    ensures Protocol.Faithful(HistoryReplies(s), ids, addresses, values) <==> values == HistoriesInBulk(s, addresses)
  {
  }

  lemma HexesAreBulkReplies(s: Server, ids: seq<int>, txids: seq<TxId>, values: seq<string>)
    requires |ids| == |txids|
    ensures Protocol.Faithful(TxReplies(s), ids, txids, values) <==> HexesInBulk(s, txids) == Success(values)
  {
    var hexes := HexesInBulk(s, txids);
    if Protocol.Faithful(TxReplies(s), ids, txids, values) {
      forall k | 0 <= k < |txids|
        ensures s.txHexes(txids[k]) == Some(values[k])
      {
        assert TxReplies(s)(ids[k], txids[k]) == Protocol.Answer(values[k]);
      }
      assert hexes.Success?;
      assert hexes.value == values;
    }
  }

  /** The std::set keyed by txid: an item whose id is already there is not inserted. */
  function Insert(items: seq<HistoryItem>, x: HistoryItem): seq<HistoryItem> {
    if x.txid in Txids(items) then items else items + [x]
  }

  function InsertAll(items: seq<HistoryItem>, more: seq<HistoryItem>, n: nat): seq<HistoryItem>
    requires n <= |more|
  {
    if n == 0 then items else Insert(InsertAll(items, more, n - 1), more[n - 1])
  }

  lemma {:induction false} InsertAllGathers(items: seq<HistoryItem>, more: seq<HistoryItem>, n: nat)
    requires n <= |more| && DistinctTxids(items)
    ensures DistinctTxids(InsertAll(items, more, n))
    ensures forall x :: x in InsertAll(items, more, n) ==> x in items || x in more
    ensures forall t :: t in Txids(items) ==> t in Txids(InsertAll(items, more, n))
    ensures forall k :: 0 <= k < n ==> more[k].txid in Txids(InsertAll(items, more, n))
  {
    if n > 0 {
      InsertAllGathers(items, more, n - 1);
      InsertKeeps(InsertAll(items, more, n - 1), more[n - 1]);
    }
  }

  lemma InsertKeeps(items: seq<HistoryItem>, x: HistoryItem)
    requires DistinctTxids(items)
    ensures DistinctTxids(Insert(items, x))
    ensures forall t :: t in Txids(Insert(items, x)) <==> t in Txids(items) || t == x.txid
    ensures forall y :: y in Insert(items, x) ==> y in items || y == x
  {
    if x.txid !in Txids(items) {
      assert Txids(items + [x]) == Txids(items) + [x.txid];
      forall i | 0 <= i < |items|
        ensures items[i].txid != x.txid
      {
        assert Txids(items)[i] == items[i].txid;
      }
    }
  }

  lemma MergesOneMore(s: Server, addresses: seq<Address>, n: nat, items: seq<HistoryItem>)
    requires n < |addresses| && Merged(s, addresses[..n], items)
    ensures var more := s.histories(addresses[n]);
            Merged(s, addresses[..n + 1], InsertAll(items, more, |more|))
  {
    var more := s.histories(addresses[n]);
    var all := InsertAll(items, more, |more|);
    InsertAllGathers(items, more, |more|);
    assert addresses[..n + 1] == addresses[..n] + [addresses[n]];
    forall x | x in all
      ensures exists a :: a in addresses[..n + 1] && x in s.histories(a)
    {
      if x in items {
        var a :| a in addresses[..n] && x in s.histories(a);
        assert a in addresses[..n + 1];
      } else {
        assert addresses[n] in addresses[..n + 1];
      }
    }
    forall a, x | a in addresses[..n + 1] && x in s.histories(a)
      ensures x.txid in Txids(all)
    {
      if a in addresses[..n] {
        assert x.txid in Txids(items);
      } else {
        var k :| 0 <= k < |more| && more[k] == x;
      }
    }
  }

  /** What a refresh gathers from the first n addresses, whatever the caches. */
  function Gathered(c: Caches, s: Server, addresses: seq<Address>, n: nat): seq<HistoryItem>
    requires n <= |addresses|
  {
    if n == 0 then []
    else
      var items := ReadHistory(ReadHistories(c, s, addresses, n - 1), s, addresses[n - 1]).1;
      InsertAll(Gathered(c, s, addresses, n - 1), items, |items|)
  }

  // ---------- fresh flags ----------

  /** The first n items, as far as they are inserted, if this history was fetched: std::set keeps the first of equals,
      and its flag. */
  function Marks(items: seq<HistoryItem>, more: seq<HistoryItem>, n: nat, fetched: bool): set<TxId>
    requires n <= |more|
  {
    if n == 0 then {}
    else
      Marks(items, more, n - 1, fetched) +
      if fetched && more[n - 1].txid !in Txids(InsertAll(items, more, n - 1)) then {more[n - 1].txid} else {}
  }

  /** The ids that a refresh gathers with the fresh flag, from the first n addresses. */
  function FreshGathered(c: Caches, s: Server, addresses: seq<Address>, n: nat): set<TxId>
    requires n <= |addresses|
  {
    if n == 0 then {}
    else
      var before := ReadHistories(c, s, addresses, n - 1);
      var items := ReadHistory(before, s, addresses[n - 1]).1;
      FreshGathered(c, s, addresses, n - 1) +
      Marks(Gathered(c, s, addresses, n - 1), items, |items|, Fetches(before, addresses[n - 1]))
  }

  lemma {:induction false} InsertAllTxids(items: seq<HistoryItem>, more: seq<HistoryItem>, n: nat)
    requires n <= |more|
    ensures forall t :: t in Txids(InsertAll(items, more, n)) <==> t in Txids(items) || t in Txids(more)[..n]
  {
    if n > 0 {
      InsertAllTxids(items, more, n - 1);
      InsertTxids(InsertAll(items, more, n - 1), more[n - 1]);
      assert Txids(more)[..n] == Txids(more)[..n - 1] + [more[n - 1].txid];
    }
  }

  lemma InsertTxids(items: seq<HistoryItem>, x: HistoryItem)
    ensures forall t :: t in Txids(Insert(items, x)) <==> t in Txids(items) || t == x.txid
  {
    if x.txid !in Txids(items) {
      assert Txids(items + [x]) == Txids(items) + [x.txid];
    }
  }

  lemma {:induction false} MarksExactly(items: seq<HistoryItem>, more: seq<HistoryItem>, n: nat, fetched: bool)
    requires n <= |more|
    ensures forall t :: t in Marks(items, more, n, fetched) <==> fetched && t in Txids(more)[..n] && t !in Txids(items)
  {
    if n > 0 {
      MarksExactly(items, more, n - 1, fetched);
      InsertAllTxids(items, more, n - 1);
      assert Txids(more)[..n] == Txids(more)[..n - 1] + [more[n - 1].txid];
    }
  }

  /** Reading other addresses' histories decides nothing about whether this one's is fetched. */
  lemma {:induction false} FetchesUnaffected(c: Caches, s: Server, addresses: seq<Address>, n: nat, a: Address)
    requires n <= |addresses| && a !in addresses[..n]
    ensures Fetches(ReadHistories(c, s, addresses, n), a) <==> Fetches(c, a)
  {
    if n > 0 {
      assert addresses[..n] == addresses[..n - 1] + [addresses[n - 1]];
      FetchesUnaffected(c, s, addresses, n - 1, a);
    }
  }

  /** The address that lists an id first, and whether its history was in the cache. */
  ghost predicate FirstListedFresh(c: Caches, s: Server, addresses: seq<Address>, k: nat, t: TxId)
    requires k < |addresses|
  {
    && t in Txids(s.histories(addresses[k])) && CachedHistory(c, addresses[k]) == []
    && forall j :: 0 <= j < k ==> t !in Txids(s.histories(addresses[j]))
  }

  lemma {:induction false} FreshUpTo(c: Caches, s: Server, addresses: seq<Address>, n: nat, t: TxId)
    requires n <= |addresses| && Coherent(c, s, addresses)
    requires forall j, k :: 0 <= j < k < |addresses| ==> addresses[j] != addresses[k]
    ensures t in Txids(Gathered(c, s, addresses, n))
       <==> exists j :: 0 <= j < n && t in Txids(s.histories(addresses[j]))
    ensures t in FreshGathered(c, s, addresses, n)
       <==> exists k :: 0 <= k < n && FirstListedFresh(c, s, addresses, k, t)
  {
    hide Txids, ReadHistory, ReadHistories, InsertAll, Marks, TxCoherent, CachedHistory, KnownEmpty;
    if n > 0 {
      var a := addresses[n - 1];
      FreshUpTo(c, s, addresses, n - 1, t);
      FreshOneMore(c, s, addresses, n - 1);
      assert FirstListedFresh(c, s, addresses, n - 1, t) <==>
        && t in Txids(s.histories(a)) && CachedHistory(c, a) == []
        && t !in Txids(Gathered(c, s, addresses, n - 1));
    } else {
      assert |Txids(Gathered(c, s, addresses, 0))| == 0;
    }
  }

  lemma FreshOneMore(c: Caches, s: Server, addresses: seq<Address>, n: nat)
    requires n < |addresses| && Coherent(c, s, addresses)
    requires forall j, k :: 0 <= j < k < |addresses| ==> addresses[j] != addresses[k]
    ensures var a, items := addresses[n], Gathered(c, s, addresses, n);
            && (forall t :: t in Txids(Gathered(c, s, addresses, n + 1)) <==>
                              t in Txids(items) || t in Txids(s.histories(a)))
            && (forall t :: t in FreshGathered(c, s, addresses, n + 1) <==>
                              || t in FreshGathered(c, s, addresses, n)
                              || (CachedHistory(c, a) == [] && t in Txids(s.histories(a)) && t !in Txids(items)))
  {
    hide Marks, InsertAll, ReadHistory, ReadHistories, TxCoherent;
    var a, items := addresses[n], Gathered(c, s, addresses, n);
    var more := s.histories(a);
    ReadHistoriesCoherent(c, s, addresses, n);
    assert a in addresses;
    ReadsAreCurrent(ReadHistories(c, s, addresses, n), s, a, "");
    FetchesUnaffected(c, s, addresses, n, a);
    InsertAllTxids(items, more, |more|);
    MarksExactly(items, more, |more|, Fetches(c, a));
    assert Txids(more)[..|more|] == Txids(more);
    assert KnownEmpty(c, a) ==> Txids(more) == [];
  }

  /** From coherent caches a transaction is fresh if and only if the first of the wallet's addresses that lists it had
      no cached history before the call. */
  lemma FreshExactly(c: Caches, s: Server, addresses: seq<Address>, t: TxId)
    requires Coherent(c, s, addresses)
    requires forall j, k :: 0 <= j < k < |addresses| ==> addresses[j] != addresses[k]
    ensures t in FreshGathered(c, s, addresses, |addresses|)
       <==> exists k :: 0 <= k < |addresses| && FirstListedFresh(c, s, addresses, k, t)
  {
    FreshUpTo(c, s, addresses, |addresses|, t);
  }

  // ---------- of equal ids the first is kept ----------

  /** x is item j of the history of address k, and no earlier item of that history or an earlier one has its id. */
  ghost predicate FirstAt(s: Server, addresses: seq<Address>, k: nat, j: nat, x: HistoryItem)
    requires k < |addresses|
  {
    && j < |s.histories(addresses[k])| && s.histories(addresses[k])[j] == x
    && (forall i :: 0 <= i < j ==> s.histories(addresses[k])[i].txid != x.txid)
    && forall m :: 0 <= m < k ==> x.txid !in Txids(s.histories(addresses[m]))
  }

  /** The items are, of the first n histories one after the other, the first with each id. */
  ghost predicate KeepsFirst(s: Server, addresses: seq<Address>, n: nat, items: seq<HistoryItem>)
    requires n <= |addresses|
  {
    forall x :: x in items <==> exists k, j :: 0 <= k < n && 0 <= j && FirstAt(s, addresses, k, j, x)
  }

  lemma {:induction false} InsertAllFirst(items: seq<HistoryItem>, more: seq<HistoryItem>, n: nat, x: HistoryItem)
    requires n <= |more|
    ensures x in InsertAll(items, more, n)
       <==> x in items || (x.txid !in Txids(items) && exists j :: 0 <= j < n && IsFirst(more, j, x))
  {
    if n > 0 {
      InsertAllFirst(items, more, n - 1, x);
      InsertAllTxids(items, more, n - 1);
      FirstOfPrefix(more, n, x);
    }
  }

  /** x is item j, and no earlier one has its id. */
  predicate IsFirst(more: seq<HistoryItem>, j: nat, x: HistoryItem) {
    j < |more| && more[j] == x && forall i :: 0 <= i < j ==> more[i].txid != x.txid
  }

  lemma FirstOfPrefix(more: seq<HistoryItem>, n: nat, x: HistoryItem)
    requires 0 < n <= |more|
    ensures IsFirst(more, n - 1, x) <==> x == more[n - 1] && x.txid !in Txids(more)[..n - 1]
  {
    assert forall i :: 0 <= i < n - 1 ==> Txids(more)[..n - 1][i] == more[i].txid;
  }

  lemma MergedTxids(s: Server, addresses: seq<Address>, n: nat, items: seq<HistoryItem>)
    requires n <= |addresses| && Merged(s, addresses[..n], items)
    ensures forall t :: t in Txids(items) <==> exists m :: 0 <= m < n && t in Txids(s.histories(addresses[m]))
  {
    forall t | t in Txids(items)
      ensures exists m :: 0 <= m < n && t in Txids(s.histories(addresses[m]))
    {
      var k :| 0 <= k < |items| && Txids(items)[k] == t;
      assert items[k] in items;
      var a :| a in addresses[..n] && items[k] in s.histories(a);
      var m :| 0 <= m < n && addresses[m] == a;
      var j :| 0 <= j < |s.histories(a)| && s.histories(a)[j] == items[k];
      assert Txids(s.histories(addresses[m]))[j] == t;
    }
    forall t, m | 0 <= m < n && t in Txids(s.histories(addresses[m]))
      ensures t in Txids(items)
    {
      var history := s.histories(addresses[m]);
      var j :| 0 <= j < |history| && Txids(history)[j] == t;
      assert history[j] in history && addresses[m] in addresses[..n];
    }
  }

  lemma NothingKept(s: Server, addresses: seq<Address>)
    ensures KeepsFirst(s, addresses, 0, []) && Merged(s, addresses[..0], [])
  {
  }

  lemma KeepsFirstNext(s: Server, addresses: seq<Address>, n: nat, items: seq<HistoryItem>)
    requires n < |addresses| && Merged(s, addresses[..n], items) && KeepsFirst(s, addresses, n, items)
    ensures var more := s.histories(addresses[n]);
            KeepsFirst(s, addresses, n + 1, InsertAll(items, more, |more|))
  {
    hide Merged, InsertAll, Txids;
    var more := s.histories(addresses[n]);
    MergedTxids(s, addresses, n, items);
    forall x
      ensures x in InsertAll(items, more, |more|) <==>
              exists k, j :: 0 <= k < n + 1 && 0 <= j && FirstAt(s, addresses, k, j, x)
    {
      InsertAllFirst(items, more, |more|, x);
      FirstInLast(s, addresses, n, items, x);
    }
  }

  lemma FirstInLast(s: Server, addresses: seq<Address>, n: nat, items: seq<HistoryItem>, x: HistoryItem)
    requires n < |addresses|
    requires forall t :: t in Txids(items) <==> exists m :: 0 <= m < n && t in Txids(s.histories(addresses[m]))
    ensures forall j: nat :: FirstAt(s, addresses, n, j, x) <==>
              IsFirst(s.histories(addresses[n]), j, x) && x.txid !in Txids(items)
  {
  }

  lemma {:induction false} GatheredKeepsFirst(c: Caches, s: Server, addresses: seq<Address>, n: nat)
    requires n <= |addresses| && Coherent(c, s, addresses)
    ensures KeepsFirst(s, addresses, n, Gathered(c, s, addresses, n))
  {
    hide Coherent, Merged, ReadHistory, ReadHistories, InsertAll;
    if n > 0 {
      GatheredKeepsFirst(c, s, addresses, n - 1);
      GatheredIsMerged(c, s, addresses, n - 1);
      ReadIsCurrent(c, s, addresses, n - 1);
      KeepsFirstNext(s, addresses, n - 1, Gathered(c, s, addresses, n - 1));
    }
  }

  lemma ReadIsCurrent(c: Caches, s: Server, addresses: seq<Address>, i: nat)
    requires i < |addresses| && Coherent(c, s, addresses)
    ensures ReadHistory(ReadHistories(c, s, addresses, i), s, addresses[i]).1 == s.histories(addresses[i])
  {
    ReadHistoriesCoherent(c, s, addresses, i);
    assert addresses[i] in addresses;
    ReadsAreCurrent(ReadHistories(c, s, addresses, i), s, addresses[i], "");
  }

  lemma PermutedKeepsFirst(s: Server, addresses: seq<Address>, a: seq<HistoryItem>, b: seq<HistoryItem>)
    requires KeepsFirst(s, addresses, |addresses|, a) && multiset(a) == multiset(b)
    ensures KeepsFirst(s, addresses, |addresses|, b)
  {
    forall x
      ensures x in a <==> x in b
    {
      assert x in multiset(a) <==> x in multiset(b);
    }
  }

  /** From coherent caches what is gathered is every listed transaction, once. */
  lemma {:induction false} GatheredIsMerged(c: Caches, s: Server, addresses: seq<Address>, n: nat)
    requires n <= |addresses| && Coherent(c, s, addresses)
    ensures Merged(s, addresses[..n], Gathered(c, s, addresses, n))
  {
    hide Coherent, Merged, ReadHistory, ReadHistories, InsertAll;
    if n == 0 {
      NothingMerged(s);
      assert addresses[..0] == [];
    } else {
      GatheredIsMerged(c, s, addresses, n - 1);
      RefreshStep(c, s, addresses, n - 1, Gathered(c, s, addresses, n - 1));
    }
  }

  /** One address of the refresh, from coherent caches. */
  lemma RefreshStep(c: Caches, s: Server, addresses: seq<Address>, i: nat, gathered: seq<HistoryItem>)
    requires i < |addresses| && Coherent(c, s, addresses) && Merged(s, addresses[..i], gathered)
    ensures var items := ReadHistory(ReadHistories(c, s, addresses, i), s, addresses[i]).1;
            Merged(s, addresses[..i + 1], InsertAll(gathered, items, |items|))
  {
    ReadIsCurrent(c, s, addresses, i);
    MergesOneMore(s, addresses, i, gathered);
  }

  lemma NothingMerged(s: Server)
    ensures Merged(s, [], [])
  {
  }

  /** Same elements, same ids. */
  lemma PermutedMerged(s: Server, addresses: seq<Address>, a: seq<HistoryItem>, b: seq<HistoryItem>)
    requires Merged(s, addresses, a) && multiset(a) == multiset(b)
    ensures Merged(s, addresses, b)
  {
    forall x
      ensures x in a <==> x in b
    {
      assert x in multiset(a) <==> x in multiset(b);
    }
    PermutedDistinct(a, b);
    forall w, x | w in addresses && x in s.histories(w)
      ensures x.txid in Txids(b)
    {
      assert x.txid in Txids(a);
      var k :| 0 <= k < |a| && Txids(a)[k] == x.txid;
      assert a[k] in b;
      var j :| 0 <= j < |b| && b[j] == a[k];
      assert Txids(b)[j] == x.txid;
    }
  }

  lemma SortedIsWalletHistory(s: Server, addresses: seq<Address>, a: seq<HistoryItem>, b: seq<HistoryItem>)
    requires Merged(s, addresses, a) && multiset(a) == multiset(b) && Sorted(b)
    ensures IsWalletHistory(s, addresses, b)
  {
    PermutedMerged(s, addresses, a, b);
  }

  lemma PermutedDistinct(a: seq<HistoryItem>, b: seq<HistoryItem>)
    requires DistinctTxids(a) && multiset(a) == multiset(b)
    ensures DistinctTxids(b)
  {
    forall i, j | 0 <= i < j < |b|
      ensures b[i].txid != b[j].txid
    {
      assert b[i] in multiset(a) && b[j] in multiset(a);
      if b[i].txid == b[j].txid {
        var p :| 0 <= p < |a| && a[p] == b[i];
        var q :| 0 <= q < |a| && a[q] == b[j];
        assert p == q;
        TwiceIn(b, i, j);
        OnceIn(a, p);
        assert false;
      }
    }
  }

  lemma TwiceIn(b: seq<HistoryItem>, i: nat, j: nat)
    requires i < j < |b| && b[i] == b[j]
    ensures multiset(b)[b[i]] >= 2
  {
    assert b == b[..i] + [b[i]] + b[i + 1..j] + [b[j]] + b[j + 1..];
  }

  lemma OnceIn(a: seq<HistoryItem>, p: nat)
    requires DistinctTxids(a) && p < |a|
    ensures multiset(a)[a[p]] == 1
  {
    assert a == a[..p] + [a[p]] + a[p + 1..];
    assert a[p] !in a[..p] && a[p] !in a[p + 1..];
  }

  /** What a lookup returns does not depend on the histories, nor on what was looked up before. */
  lemma SameTxHex(c: Caches, d: Caches, s: Server)
    requires c.txHex == d.txHex
    ensures forall t :: ReadTx(c, s, t).1 == ReadTx(d, s, t).1
    ensures TxCoherent(c, s) <==> TxCoherent(d, s)
  {
  }

  lemma ReadTxStable(c: Caches, s: Server, txid: TxId)
    ensures forall t :: ReadTx(ReadTx(c, s, txid).0, s, t).1 == ReadTx(c, s, t).1
  {
  }

  /** What the simple call leaves and returns when the caches were coherent: caches that still are, the sorted wallet
      history, and the server's transactions one to one; it fails exactly if one is missing. */
  lemma SimpleIsCurrent(c: Caches, after: Caches, s: Server, addresses: seq<Address>, all: seq<HistoryItem>)
    requires Coherent(c, s, addresses) && TxCoherent(after, s)
    requires after.history == ReadHistories(c, s, addresses, |addresses|).history
    requires after.empty == ReadHistories(c, s, addresses, |addresses|).empty
    requires multiset(all) == multiset(Gathered(c, s, addresses, |addresses|)) && Sorted(all)
    ensures Coherent(after, s, addresses) && IsWalletHistory(s, addresses, all)
    ensures KeepsFirst(s, addresses, |addresses|, all)
    ensures forall infos :: InfosRead(c, s, all, infos) <==> InfosOf(s, all, infos)
    ensures forall x :: x in all ==> (Unreadable(c, s, x) <==> FetchTx(s, x.txid).Failure?)
  {
    hide Sorted, Gathered, ReadTx, IsWalletHistory, ReadHistories, TxCoherent, KeepsFirst;
    ReadHistoriesCoherent(c, s, addresses, |addresses|);
    GatheredKeepsFirst(c, s, addresses, |addresses|);
    PermutedKeepsFirst(s, addresses, Gathered(c, s, addresses, |addresses|), all);
    GatheredIsMerged(c, s, addresses, |addresses|);
    assert addresses[..|addresses|] == addresses;
    SortedIsWalletHistory(s, addresses, Gathered(c, s, addresses, |addresses|), all);
    forall t
      ensures t != "" ==> ReadTx(c, s, t).1 == FetchTx(s, t)
    {
      ReadsAreCurrent(c, s, "", t);
    }
    assert FetchTx(s, "").Failure?;
  }

  lemma LoadOne(c: Caches, txids: seq<TxId>, i: nat, hex: string)
    requires i < |txids|
    ensures var after := c.(txHex := c.txHex[txids[i] := hex]);
            && CachedHex(after, txids[i]) == hex
            && forall t :: t != txids[i] ==> CachedHex(after, t) == CachedHex(c, t)
    ensures forall t :: t in txids[..i + 1] <==> t in txids[..i] || t == txids[i]
  {
    assert txids[..i + 1] == txids[..i] + [txids[i]];
  }

  lemma LoadKeepsCoherent(c: Caches, s: Server, txid: TxId, hex: string)
    requires s.txHexes(txid) == Some(hex)
    ensures TxCoherent(c, s) ==> TxCoherent(c.(txHex := c.txHex[txid := hex]), s)
  {
  }

  /** What decoding the hex gives. */
  ghost predicate IsDecoded(s: Server, hex: string, r: Result<DecodedTx, WalletError>) {
    match s.decode(hex)
    case None => r == Failure(Undecodable(hex))
    case Some(tx) => r == Success(tx)
  }

  class WalletState {
    const addresses: seq<Address>
    var txid2Txhex: map<TxId, string>
    var address2History: map<Address, seq<HistoryItem>>
    var address2HistoryEmpty: map<Address, bool>
    var allHistory: seq<HistoryItem>
    /** The ids of the items of allHistory that carry the fresh flag. */
    var marked: set<TxId>

    constructor (addresses: seq<Address>)
      ensures this.addresses == addresses && State() == NO_CACHES && allHistory == [] && marked == {}
    {
      this.addresses := addresses;
      marked := {};
      txid2Txhex, address2History, address2HistoryEmpty, allHistory := map[], map[], map[], [];
    }

    function State(): Caches
      reads this
    {
      Caches(txid2Txhex, address2History, address2HistoryEmpty)
    }

    method IsInWallet(a: Address) returns (found: bool)
      ensures found == InWallet(addresses, a)
    {
      found := a in addresses;
    }

    method GetTransaction(s: Server, txid: TxId) returns (r: Result<DecodedTx, WalletError>)
      modifies this`txid2Txhex
      ensures (State(), r) == ReadTx(old(State()), s, txid)
      ensures old(txid in txid2Txhex && txid2Txhex[txid] != "") ==>
                txid2Txhex == old(txid2Txhex) && IsDecoded(s, old(txid2Txhex)[txid], r)
      ensures !old(txid in txid2Txhex && txid2Txhex[txid] != "") ==>
                if txid == "" then txid2Txhex == old(txid2Txhex) && r == Failure(EmptyTxId)
                else match s.txHexes(txid)
                  case None => txid2Txhex == old(txid2Txhex) && r == Failure(UnknownTx(txid))
                  case Some(hex) => txid2Txhex == old(txid2Txhex)[txid := hex] && IsDecoded(s, hex, r)
    {
      var txHex := if txid in txid2Txhex then txid2Txhex[txid] else "";
      if txHex == "" {
        var fetched := FetchHex(s, txid);
        if fetched.Failure? {
          return Failure(fetched.error);
        }
        txHex := fetched.value;
        txid2Txhex := txid2Txhex[txid := txHex];
      }
      return Decode(s, txHex);
    }

    /** The items, and the fresh flag that all of them carry. */
    method GetHistory(s: Server, a: Address) returns (items: seq<HistoryItem>, isFresh: bool)
      modifies this`address2History, this`address2HistoryEmpty
      ensures (State(), items) == ReadHistory(old(State()), s, a)
      ensures isFresh <==> Fetches(old(State()), a)
      ensures old(a in address2HistoryEmpty && address2HistoryEmpty[a]) ==>
                && items == [] && !isFresh
                && address2History == old(address2History) && address2HistoryEmpty == old(address2HistoryEmpty)
      ensures !old(a in address2HistoryEmpty && address2HistoryEmpty[a]) ==>
                if old(a in address2History && address2History[a] != []) then
                  && items == old(address2History)[a] && !isFresh
                  && address2History == old(address2History) && address2HistoryEmpty == old(address2HistoryEmpty)
                else
                  && items == s.histories(a) && isFresh && address2History == old(address2History)[a := items]
                  && address2HistoryEmpty
                     == if items == [] then old(address2HistoryEmpty)[a := true] else old(address2HistoryEmpty)
    {
      items, isFresh := [], false;
      if a in address2HistoryEmpty && address2HistoryEmpty[a] {
        return;
      }
      var cached := if a in address2History then address2History[a] else [];
      if cached == [] {
        items, isFresh := s.histories(a), true;
        address2History := address2History[a := items];
        if items == [] {
          address2HistoryEmpty := address2HistoryEmpty[a := true];
        }
      } else {
        items := cached;
      }
    }

    method RefreshAllHistory(s: Server)
      modifies this
      ensures State() == ReadHistories(old(State()), s, addresses, |addresses|)
      ensures allHistory == Gathered(old(State()), s, addresses, |addresses|)
      ensures marked == FreshGathered(old(State()), s, addresses, |addresses|)
    {
      hide ReadHistory, Fetches;
      var ahiSet: seq<HistoryItem> := [];
      var marks: set<TxId> := {};
      for i := 0 to |addresses|
        invariant State() == ReadHistories(old(State()), s, addresses, i)
        invariant ahiSet == Gathered(old(State()), s, addresses, i)
        invariant marks == FreshGathered(old(State()), s, addresses, i)
      {
        var items, isFresh := GetHistory(s, addresses[i]);
        ghost var set0, marks0 := ahiSet, marks;
        for k := 0 to |items|
          invariant ahiSet == InsertAll(set0, items, k)
          invariant marks == marks0 + Marks(set0, items, k, isFresh)
        {
          if isFresh && items[k].txid !in Txids(ahiSet) {
            marks := marks + {items[k].txid};
          }
          ahiSet := Insert(ahiSet, items[k]);
        }
      }
      allHistory, marked := ahiSet, marks;
    }

    /** The fresh flags come with the items from the JSON reader, which never sets them: they may be anything. */
    method RefreshAllHistoryBulk(s: Server, flags: set<TxId>)
      modifies this
      ensures marked == flags
      ensures State() == BulkRefresh(old(State()), s, addresses, |addresses|)
      ensures txid2Txhex == old(txid2Txhex)
      ensures forall a :: CachedHistory(State(), a) ==
                          if a in addresses then s.histories(a) else CachedHistory(old(State()), a)
      ensures forall a :: KnownEmpty(State(), a) <==>
                            KnownEmpty(old(State()), a) || (a in addresses && s.histories(a) == [])
      ensures Merged(s, addresses, allHistory) && KeepsFirst(s, addresses, |addresses|, allHistory)
    {
      hide KeepsFirst, Merged;
      NothingKept(s, addresses);
      var ahiSet: seq<HistoryItem> := [];
      var histories := HistoriesInBulk(s, addresses);
      for i := 0 to |histories|
        invariant State() == BulkRefresh(old(State()), s, addresses, i)
        invariant Merged(s, addresses[..i], ahiSet) && KeepsFirst(s, addresses, i, ahiSet)
      {
        var items := histories[i];
        ghost var set0 := ahiSet;
        for k := 0 to |items|
          invariant ahiSet == InsertAll(set0, items, k)
          invariant State() == BulkRefresh(old(State()), s, addresses, i)
        {
          ahiSet := Insert(ahiSet, items[k]);
        }
        address2History := address2History[addresses[i] := items];
        if items == [] {
          address2HistoryEmpty := address2HistoryEmpty[addresses[i] := true];
        }
        MergesOneMore(s, addresses, i, set0);
        KeepsFirstNext(s, addresses, i, set0);
      }
      assert addresses[..|addresses|] == addresses;
      allHistory, marked := ahiSet, flags;
      forall a
        ensures CachedHistory(State(), a) ==
                if a in addresses then s.histories(a) else CachedHistory(old(State()), a)
        ensures KnownEmpty(State(), a) <==>
                  KnownEmpty(old(State()), a) || (a in addresses && s.histories(a) == [])
      {
        BulkRefreshed(old(State()), s, addresses, |addresses|, a);
      }
      BulkRefreshed(old(State()), s, addresses, |addresses|, "");
    }

    /** std::sort with the history comparator, in place; its result is unique, so any algorithm does. */
    method SortAllHistory()
      modifies this`allHistory
      ensures multiset(allHistory) == multiset(old(allHistory)) && Sorted(allHistory) && NewestFirst(allHistory)
    {
      hide Before, Sorted, NewestFirst;
      NothingSorted();
      var unsorted := allHistory;
      allHistory := [];
      for i := 0 to |unsorted|
        invariant multiset(allHistory) == multiset(unsorted[..i]) && Sorted(allHistory)
      {
        var x := unsorted[i];
        var k := 0;
        while k < |allHistory| && !Before(x, allHistory[k])
          invariant k <= |allHistory|
          invariant forall j :: 0 <= j < k ==> !Before(x, allHistory[j])
        {
          k := k + 1;
        }
        InsertSorted(allHistory, x, k);
        InsertOne(allHistory, x, k);
        allHistory := allHistory[..k] + [x] + allHistory[k..];
        assert unsorted[..i + 1] == unsorted[..i] + [x];
      }
      assert unsorted[..|unsorted|] == unsorted;
      SortedMeans(allHistory);
    }

    /** From any caches: each transaction is what a single lookup from the same caches would have given. */
    method GetAllTxsSorted(s: Server) returns (r: Result<seq<TransactionInfo>, WalletError>)
      modifies this
      ensures multiset(allHistory) == multiset(Gathered(old(State()), s, addresses, |addresses|))
      ensures Sorted(allHistory) && NewestFirst(allHistory)
      ensures State().history == ReadHistories(old(State()), s, addresses, |addresses|).history
      ensures State().empty == ReadHistories(old(State()), s, addresses, |addresses|).empty
      ensures TxCoherent(old(State()), s) ==> TxCoherent(State(), s)
      ensures marked == FreshGathered(old(State()), s, addresses, |addresses|)
      ensures r.Success? ==> InfosRead(old(State()), s, allHistory, r.value) && MarksOf(marked, allHistory, r.value)
      ensures r.Failure? ==> exists x :: x in allHistory && Unreadable(old(State()), s, x)
    {
      hide Gathered, FreshGathered, ReadHistories, ReadTx, Sorted, NewestFirst, TxCoherent;
      RefreshAllHistory(s);
      ghost var refreshed := State();
      ReadHistoriesCoherent(old(State()), s, addresses, |addresses|);
      SortAllHistory();
      SameTxHex(old(State()), refreshed, s);
      ghost var sorted, marks := allHistory, marked;
      var txs: seq<TransactionInfo> := [];
      for i := 0 to |allHistory|
        invariant allHistory == sorted && marked == marks
        invariant State().history == refreshed.history && State().empty == refreshed.empty
        invariant TxCoherent(old(State()), s) ==> TxCoherent(State(), s)
        invariant forall t :: ReadTx(State(), s, t).1 == ReadTx(old(State()), s, t).1
        invariant InfosRead(old(State()), s, allHistory[..i], txs) && MarksOf(marked, allHistory[..i], txs)
      {
        var item := allHistory[i];
        assert item in allHistory;
        if item.txid == "" {
          return Failure(EmptyTxId);
        }
        ReadsAreCurrent(State(), s, "", item.txid);
        ReadTxStable(State(), s, item.txid);
        var tx := GetTransaction(s, item.txid);
        if tx.Failure? {
          return Failure(tx.error);
        }
        txs := txs + [TransactionInfo(tx.value, item.height, item.txid in marked)];
        assert allHistory[..i + 1] == allHistory[..i] + [item];
      }
      assert allHistory[..|allHistory|] == allHistory;
      return Success(txs);
    }

    /** Needs no coherent caches: every history and every transaction is asked for anew. */
    method GetAllTxsSortedBulk(s: Server, flags: set<TxId>) returns (r: Result<seq<TransactionInfo>, WalletError>)
      modifies this
      ensures r.Success? ==> MarksOf(flags, allHistory, r.value)
      ensures marked == flags
      ensures IsWalletHistory(s, addresses, allHistory) && NewestFirst(allHistory)
      ensures KeepsFirst(s, addresses, |addresses|, allHistory)
      ensures r.Success? ==> InfosOf(s, allHistory, r.value)
      ensures r.Success? ==> forall x :: x in allHistory ==> s.txHexes(x.txid) == Some(CachedHex(State(), x.txid))
      ensures r.Failure? ==> exists x :: x in allHistory && FetchTx(s, x.txid).Failure?
      ensures TxCoherent(old(State()), s) ==> TxCoherent(State(), s)
      ensures State().history == BulkRefresh(old(State()), s, addresses, |addresses|).history
      ensures State().empty == BulkRefresh(old(State()), s, addresses, |addresses|).empty
    {
      hide IsWalletHistory, Merged, BulkRefresh, TxCoherent, NewestFirst, KeepsFirst;
      RefreshAllHistoryBulk(s, flags);
      BulkRefreshTxCoherent(old(State()), s, addresses);
      ghost var merged := allHistory;
      SortAllHistory();
      SortedIsWalletHistory(s, addresses, merged, allHistory);
      PermutedKeepsFirst(s, addresses, merged, allHistory);
      var txids := Txids(allHistory);
      var hexes := HexesInBulk(s, txids);
      if hexes.Failure? {
        ghost var t :| t in txids && s.txHexes(t).None?;
        ghost var k :| 0 <= k < |txids| && txids[k] == t;
        assert allHistory[k] in allHistory;
        return Failure(hexes.error);
      }
      r := CacheAndDecode(s, hexes.value);
    }

    /** The loop at the end of get_all_txs_sorted_bulk. */
    method CacheAndDecode(s: Server, txHexes: seq<string>) returns (r: Result<seq<TransactionInfo>, WalletError>)
      requires |txHexes| == |allHistory|
      requires forall k :: 0 <= k < |allHistory| ==> s.txHexes(allHistory[k].txid) == Some(txHexes[k])
      modifies this`txid2Txhex
      ensures r.Success? ==> InfosOf(s, allHistory, r.value) && MarksOf(marked, allHistory, r.value)
      ensures r.Success? ==> forall x :: x in allHistory ==> s.txHexes(x.txid) == Some(CachedHex(State(), x.txid))
      ensures r.Failure? ==> exists x :: x in allHistory && FetchTx(s, x.txid).Failure?
      ensures TxCoherent(old(State()), s) ==> TxCoherent(State(), s)
    {
      hide TxCoherent;
      var txs: seq<TransactionInfo> := [];
      for i := 0 to |allHistory|
        invariant TxCoherent(old(State()), s) ==> TxCoherent(State(), s)
        invariant |txs| == i
        invariant InfosOf(s, allHistory[..i], txs) && MarksOf(marked, allHistory[..i], txs)
        invariant forall k :: 0 <= k < i ==>
                    s.txHexes(allHistory[k].txid) == Some(CachedHex(State(), allHistory[k].txid))
      {
        var item, txHex := allHistory[i], txHexes[i];
        LoadKeepsCoherent(State(), s, item.txid, txHex);
        txid2Txhex := txid2Txhex[item.txid := txHex];
        var tx := Decode(s, txHex);
        if tx.Failure? {
          assert item in allHistory;
          return Failure(tx.error);
        }
        txs := txs + [TransactionInfo(tx.value, item.height, item.txid in marked)];
      }
      assert allHistory[..|allHistory|] == allHistory;
      return Success(txs);
    }

    /** Preloading the funding transactions. */
    method LoadTxsBulk(s: Server, txids: seq<TxId>) returns (r: Result<(), WalletError>)
      modifies this`txid2Txhex
      ensures TxCoherent(old(State()), s) ==> TxCoherent(State(), s)
      ensures r.Success? ==> forall t :: t in txids ==> s.txHexes(t) == Some(CachedHex(State(), t))
      ensures forall t :: t !in txids ==> CachedHex(State(), t) == CachedHex(old(State()), t)
      ensures r.Failure? ==> State() == old(State()) && exists t :: t in txids && s.txHexes(t).None?
    {
      hide TxCoherent, HexesInBulk, CachedHex;
      var hexes := HexesInBulk(s, txids);
      if hexes.Failure? {
        return Failure(hexes.error);
      }
      for i := 0 to |txids|
        invariant TxCoherent(old(State()), s) ==> TxCoherent(State(), s)
        invariant forall t :: t in txids[..i] ==> s.txHexes(t) == Some(CachedHex(State(), t))
        invariant forall t :: t !in txids ==> CachedHex(State(), t) == CachedHex(old(State()), t)
      {
        assert txids[i] in txids;
        LoadKeepsCoherent(State(), s, txids[i], hexes.value[i]);
        LoadOne(State(), txids, i, hexes.value[i]);
        txid2Txhex := txid2Txhex[txids[i] := hexes.value[i]];
      }
      assert txids[..|txids|] == txids;
      return Success(());
    }

    method ClearCaches()
      modifies this
      ensures State() == NO_CACHES && allHistory == [] && marked == {}
    {
      marked := {};
      txid2Txhex, address2History, address2HistoryEmpty, allHistory := map[], map[], map[], [];
    }

    method ClearCachesForAddress(a: Address)
      modifies this
      ensures State() == ClearFor(old(State()), a) && allHistory == [] && marked == {}
      ensures txid2Txhex == old(txid2Txhex) && address2History == old(address2History)[a := []]
      ensures address2HistoryEmpty == old(address2HistoryEmpty)[a := false]
    {
      allHistory, marked := [], {};
      address2History := address2History[a := []];
      address2HistoryEmpty := address2HistoryEmpty[a := false];
    }
  }

  /**
    * Bulk refines simple: whatever two calls, simple or bulk, gathered and returned, they returned the same
    * transactions and heights in the same order.
    */
  lemma SameTransactions(s: Server, addresses: seq<Address>, simple: seq<HistoryItem>, infos: seq<TransactionInfo>,
                         bulk: seq<HistoryItem>, bulkInfos: seq<TransactionInfo>)
    requires OneHeight(s, addresses)
    requires IsWalletHistory(s, addresses, simple) && InfosOf(s, simple, infos)
    requires IsWalletHistory(s, addresses, bulk) && InfosOf(s, bulk, bulkInfos)
    ensures |infos| == |bulkInfos|
    ensures forall k :: 0 <= k < |infos| ==> infos[k].tx == bulkInfos[k].tx && infos[k].height == bulkInfos[k].height
  {
    WalletHistoryUnique(s, addresses, simple, bulk);
  }

  lemma NothingSorted()
    ensures Sorted([])
  {
  }

  lemma InsertOne(items: seq<HistoryItem>, x: HistoryItem, k: nat)
    requires k <= |items|
    ensures multiset(items[..k] + [x] + items[k..]) == multiset(items) + multiset{x}
  {
    assert items == items[..k] + items[k..];
  }

  lemma InsertSorted(items: seq<HistoryItem>, x: HistoryItem, k: nat)
    requires k <= |items| && Sorted(items)
    requires forall j :: 0 <= j < k ==> !Before(x, items[j])
    requires k < |items| ==> Before(x, items[k])
    ensures Sorted(items[..k] + [x] + items[k..])
  {
    forall j | k <= j < |items|
      ensures !Before(items[j], x)
    {
      BeforeLaws(items[j], x, items[k]);
      BeforeLaws(items[k], items[j], items[k]);
      BeforeLaws(x, items[j], x);
    }
  }
}

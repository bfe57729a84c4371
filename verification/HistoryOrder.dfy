/** The order of the wallet history: WalletState::sort_all_history's comparator, and why sorting has one result. */
module HistoryOrder {
  import opened Ledger
  import opened WalletServer

  /** std::string's operator<. */
  predicate LexLess(a: string, b: string) {
    if b == "" then false
    else if a == "" then true
    else a[0] < b[0] || (a[0] == b[0] && LexLess(a[1..], b[1..]))
  }

  /** The comparator: height 0 first, then falling heights (so -1 comes last), then falling ids. */
  predicate Before(l: HistoryItem, r: HistoryItem) {
    if l.height != r.height then
      if l.height == 0 then true
      else if r.height == 0 then false
      else l.height > r.height
    else LexLess(r.txid, l.txid)
  }

  lemma {:induction false} LexLaws(a: string, b: string, c: string)
    ensures !LexLess(a, a)
    ensures LexLess(a, b) && LexLess(b, c) ==> LexLess(a, c)
    ensures LexLess(a, b) || a == b || LexLess(b, a)
  {
    if a != "" {
      LexLaws(a[1..], if b == "" then "" else b[1..], if c == "" then "" else c[1..]);
      if b != "" && a[0] == b[0] && a[1..] == b[1..] {
        assert a == [a[0]] + a[1..] && b == [b[0]] + b[1..];
      }
    }
  }

  /** A strict total order on (height, txid), for all heights, 0 and negative ones included. */
  lemma BeforeLaws(a: HistoryItem, b: HistoryItem, c: HistoryItem)
    ensures !Before(a, a)
    ensures Before(a, b) && Before(b, c) ==> Before(a, c)
    ensures Before(a, b) || a == b || Before(b, a)
  {
    LexLaws(a.txid, b.txid, c.txid);
    LexLaws(c.txid, b.txid, a.txid);
  }

  /** What std::sort promises: no later element comes before an earlier one. */
  predicate Sorted(items: seq<HistoryItem>) {
    forall i, j :: 0 <= i < j < |items| ==> !Before(items[j], items[i])
  }

  // ---------- what the order is, read off the list ----------

  /** At the first position where the two differ, a has the greater character; or b is a proper prefix of a. */
  ghost predicate GreaterId(a: TxId, b: TxId) {
    exists n: nat :: DiffersAt(a, b, n) && n < |a| && (n == |b| || a[n] > b[n])
  }

  /** The first n characters are the same, and the two differ there or one ends there. */
  predicate DiffersAt(a: TxId, b: TxId, n: nat) {
    n <= |a| && n <= |b| && a[..n] == b[..n] && (n < |a| && n < |b| ==> a[n] != b[n])
  }

  lemma {:induction false} LexMeans(a: TxId, b: TxId)
    ensures LexLess(b, a) <==> GreaterId(a, b)
  {
    if a == "" || b == "" || a[0] != b[0] {
      DiffersAtOnce(a, b);
    } else {
      LexMeans(a[1..], b[1..]);
      GreaterInTail(a, b);
    }
  }

  lemma DiffersAtOnce(a: TxId, b: TxId)
    requires a == "" || b == "" || a[0] != b[0]
    ensures GreaterId(a, b) <==> a != "" && (b == "" || a[0] > b[0])
  {
    assert DiffersAt(a, b, 0);
    forall n: nat | DiffersAt(a, b, n)
      ensures n == 0
    {
      SameFirst(a, b, n);
    }
  }

  lemma SameFirst(a: TxId, b: TxId, n: nat)
    requires DiffersAt(a, b, n)
    ensures n == 0 || (a != "" && b != "" && a[0] == b[0])
  {
    if n > 0 {
      assert a[..n][0] == a[0] && b[..n][0] == b[0];
    }
  }

  lemma GreaterInTail(a: TxId, b: TxId)
    requires a != "" && b != "" && a[0] == b[0]
    ensures GreaterId(a, b) <==> GreaterId(a[1..], b[1..])
  {
    if GreaterId(a, b) {
      var n: nat :| DiffersAt(a, b, n) && n < |a| && (n == |b| || a[n] > b[n]);
      assert n > 0;
      DiffersInTail(a, b, n);
    }
    if GreaterId(a[1..], b[1..]) {
      var n: nat :| DiffersAt(a[1..], b[1..], n) && n < |a[1..]| && (n == |b[1..]| || a[1..][n] > b[1..][n]);
      DiffersInTail(a, b, n + 1);
    }
  }

  lemma DiffersInTail(a: TxId, b: TxId, n: nat)
    requires a != "" && b != "" && a[0] == b[0] && n > 0
    ensures DiffersAt(a, b, n) <==> DiffersAt(a[1..], b[1..], n - 1)
  {
    if n <= |a| && n <= |b| {
      assert a[..n] == [a[0]] + a[1..][..n - 1] && b[..n] == [b[0]] + b[1..][..n - 1];
      assert a[..n][1..] == a[1..][..n - 1] && b[..n][1..] == b[1..][..n - 1];
    }
  }

  /** x stands above y for a reason: it is at height 0 and y is not; or neither is, and it is higher; or both are at one
      height, and it has the greater id. */
  ghost predicate Above(x: HistoryItem, y: HistoryItem) {
    || (x.height == 0 && y.height != 0)
    || (x.height != 0 && y.height != 0 && x.height > y.height)
    || (x.height == y.height && GreaterId(x.txid, y.txid))
  }

  lemma BeforeMeans(x: HistoryItem, y: HistoryItem)
    ensures Before(x, y) <==> Above(x, y)
  {
    LexMeans(x.txid, y.txid);
  }

  /** Height 0 first; among the rest heights never rise; at equal heights ids never rise. So 0, then the newest block,
      ..., then -1. */
  ghost predicate NewestFirst(items: seq<HistoryItem>) {
    forall i, j :: 0 <= i < j < |items| ==>
      && (items[j].height == 0 ==> items[i].height == 0)
      && (items[i].height != 0 ==> items[i].height >= items[j].height)
      && (items[i].height == items[j].height && items[i].txid != items[j].txid ==>
            GreaterId(items[i].txid, items[j].txid))
  }

  lemma SortedMeans(items: seq<HistoryItem>)
    ensures Sorted(items) <==> NewestFirst(items)
  {
    hide GreaterId, LexLess;
    forall i, j | 0 <= i < j < |items|
      ensures !Before(items[j], items[i]) <==>
              && (items[j].height == 0 ==> items[i].height == 0)
              && (items[i].height != 0 ==> items[i].height >= items[j].height)
              && (items[i].height == items[j].height && items[i].txid != items[j].txid ==>
                    GreaterId(items[i].txid, items[j].txid))
    {
      LexMeans(items[i].txid, items[j].txid);
      LexLaws(items[i].txid, items[j].txid, items[i].txid);
    }
  }

  predicate DistinctTxids(items: seq<HistoryItem>) {
    forall i, j :: 0 <= i < j < |items| ==> items[i].txid != items[j].txid
  }

  /** The sorted order of a set of items with distinct ids is unique. */
  lemma {:induction false} SortedUnique(a: seq<HistoryItem>, b: seq<HistoryItem>)
    requires Sorted(a) && DistinctTxids(a) && Sorted(b) && DistinctTxids(b)
    requires forall x :: x in a <==> x in b
    ensures a == b
    decreases |a|
  {
    assert b != [] ==> b[0] in a;
    if a != [] {
      assert a[0] in a;
      FirstIsFirst(a, b);
      forall x | x in a[1..] || x in b[1..]
        ensures x in a[1..] && x in b[1..]
      {
        TailMembers(a, x);
        TailMembers(b, x);
      }
      SortedUnique(a[1..], b[1..]);
      assert a == [a[0]] + a[1..] && b == [b[0]] + b[1..];
    }
  }

  lemma FirstIsFirst(a: seq<HistoryItem>, b: seq<HistoryItem>)
    requires Sorted(a) && DistinctTxids(a) && Sorted(b) && DistinctTxids(b)
    requires forall x :: x in a <==> x in b
    requires a != []
    ensures b != [] && a[0] == b[0]
  {
    assert a[0] in b;
    assert b[0] in a;
    var i :| 0 <= i < |b| && b[i] == a[0];
    var j :| 0 <= j < |a| && a[j] == b[0];
    BeforeLaws(a[0], b[0], a[0]);
  }

  lemma TailMembers(a: seq<HistoryItem>, x: HistoryItem)
    requires a != [] && DistinctTxids(a)
    ensures x in a[1..] <==> x in a && x != a[0]
  {
  }

  // ---------- the merged history ----------

  /** The histories of all addresses as one list without repetition: for every listed id one of its items. */
  ghost predicate Merged(s: Server, wallet: seq<Address>, items: seq<HistoryItem>) {
    && DistinctTxids(items)
    && (forall x :: x in items ==> exists a :: a in wallet && x in s.histories(a))
    && (forall a, x :: a in wallet && x in s.histories(a) ==> x.txid in Txids(items))
  }

  ghost predicate IsWalletHistory(s: Server, wallet: seq<Address>, items: seq<HistoryItem>) {
    Merged(s, wallet, items) && Sorted(items)
  }

  lemma MergedMember(s: Server, wallet: seq<Address>, items: seq<HistoryItem>, a: Address, x: HistoryItem)
    requires Merged(s, wallet, items) && OneHeight(s, wallet)
    requires a in wallet && x in s.histories(a)
    ensures x in items
  {
    assert x.txid in Txids(items);
    var k :| 0 <= k < |items| && Txids(items)[k] == x.txid;
    assert items[k] in items;
    var b :| b in wallet && items[k] in s.histories(b);
    assert items[k] == x;
  }

  /** There is only one sorted wallet history, however it was gathered. */
  lemma WalletHistoryUnique(s: Server, wallet: seq<Address>, a: seq<HistoryItem>, b: seq<HistoryItem>)
    requires OneHeight(s, wallet) && IsWalletHistory(s, wallet, a) && IsWalletHistory(s, wallet, b)
    ensures a == b
  {
    forall x | x in a || x in b
      ensures x in a && x in b
    {
      var w :| w in wallet && x in s.histories(w);
      MergedMember(s, wallet, a, w, x);
      MergedMember(s, wallet, b, w, x);
    }
    SortedUnique(a, b);
  }
}

/** WalletState's caches as values: what each operation does to them, and coherence over whole runs. */
module WalletCaches {
  import opened Wrappers
  import opened Ledger
  import opened WalletServer

  datatype Caches = Caches(txHex: map<TxId, string>, history: map<Address, seq<HistoryItem>>, empty: map<Address, bool>)

  const NO_CACHES := Caches(map[], map[], map[])

  // ---------- the operations ----------

  /** C++ map lookup: a missing key reads as the default value. */
  function CachedHex(c: Caches, txid: TxId): string {
    if txid in c.txHex then c.txHex[txid] else ""
  }

  function CachedHistory(c: Caches, a: Address): seq<HistoryItem> {
    if a in c.history then c.history[a] else []
  }

  predicate KnownEmpty(c: Caches, a: Address) {
    a in c.empty && c.empty[a]
  }

  /** get_history asks the server; what it gets it marks as fresh, what it finds in the cache as not. */
  predicate Fetches(c: Caches, a: Address) {
    !KnownEmpty(c, a) && CachedHistory(c, a) == []
  }

  function ReadTx(c: Caches, s: Server, txid: TxId): (Caches, Result<DecodedTx, WalletError>) {
    var cached := CachedHex(c, txid);
    if cached != "" then (c, Decode(s, cached))
    else match FetchHex(s, txid)
      case Failure(e) => (c, Failure(e))
      case Success(hex) => (c.(txHex := c.txHex[txid := hex]), Decode(s, hex))
  }

  function Remember(c: Caches, a: Address, items: seq<HistoryItem>): Caches {
    c.(history := c.history[a := items], empty := if items == [] then c.empty[a := true] else c.empty)
  }

  function ReadHistory(c: Caches, s: Server, a: Address): (Caches, seq<HistoryItem>) {
    if KnownEmpty(c, a) then (c, [])
    else if CachedHistory(c, a) == [] then (Remember(c, a, s.histories(a)), s.histories(a))
    else (c, CachedHistory(c, a))
  }

  /** Reading the histories of the first n addresses one after the other. */
  function ReadHistories(c: Caches, s: Server, addresses: seq<Address>, n: nat): Caches
    requires n <= |addresses|
  {
    if n == 0 then c else ReadHistory(ReadHistories(c, s, addresses, n - 1), s, addresses[n - 1]).0
  }

  /** The bulk refresh overwrites histories and sets empty flags, but never resets one. */
  function BulkRefresh(c: Caches, s: Server, addresses: seq<Address>, n: nat): Caches
    requires n <= |addresses|
  {
    if n == 0 then c else Remember(BulkRefresh(c, s, addresses, n - 1), addresses[n - 1], s.histories(addresses[n - 1]))
  }

  function ClearFor(c: Caches, a: Address): Caches {
    c.(history := c.history[a := []], empty := c.empty[a := false])
  }

  // ---------- coherence ----------

  /** The cached history of an address is the server's, and "known empty" is true. */
  ghost predicate CoherentAt(c: Caches, s: Server, a: Address) {
    && (KnownEmpty(c, a) ==> s.histories(a) == [])
    && (CachedHistory(c, a) != [] ==> CachedHistory(c, a) == s.histories(a))
  }

  ghost predicate TxCoherent(c: Caches, s: Server) {
    forall txid :: txid in c.txHex && c.txHex[txid] != "" ==> FetchHex(s, txid) == Success(c.txHex[txid])
  }

  ghost predicate Coherent(c: Caches, s: Server, addresses: seq<Address>) {
    TxCoherent(c, s) && forall a :: a in addresses ==> CoherentAt(c, s, a)
  }

  /** From coherent caches a read is the server's present answer, and leaves the caches coherent. */
  lemma ReadsAreCurrent(c: Caches, s: Server, a: Address, txid: TxId)
    ensures CoherentAt(c, s, a) ==> ReadHistory(c, s, a).1 == s.histories(a)
    ensures forall b :: CoherentAt(c, s, b) ==> CoherentAt(ReadHistory(c, s, a).0, s, b)
    ensures ReadHistory(c, s, a).0.txHex == c.txHex
    ensures TxCoherent(c, s) ==> ReadTx(c, s, txid).1 == FetchTx(s, txid) && TxCoherent(ReadTx(c, s, txid).0, s)
    ensures ReadTx(c, s, txid).0.history == c.history && ReadTx(c, s, txid).0.empty == c.empty
  {
  }

  lemma {:induction false} ReadHistoriesCoherent(c: Caches, s: Server, addresses: seq<Address>, n: nat)
    requires n <= |addresses|
    ensures forall b :: CoherentAt(c, s, b) ==> CoherentAt(ReadHistories(c, s, addresses, n), s, b)
    ensures ReadHistories(c, s, addresses, n).txHex == c.txHex
  {
    if n > 0 {
      ReadHistoriesCoherent(c, s, addresses, n - 1);
      ReadsAreCurrent(ReadHistories(c, s, addresses, n - 1), s, addresses[n - 1], "");
    }
  }

  lemma {:induction false} BulkRefreshed(c: Caches, s: Server, addresses: seq<Address>, n: nat, a: Address)
    requires n <= |addresses|
    ensures var after := BulkRefresh(c, s, addresses, n);
            && after.txHex == c.txHex
            && CachedHistory(after, a) == (if a in addresses[..n] then s.histories(a) else CachedHistory(c, a))
            && (KnownEmpty(after, a) <==> KnownEmpty(c, a) || (a in addresses[..n] && s.histories(a) == []))
  {
    if n > 0 {
      BulkRefreshed(c, s, addresses, n - 1, a);
      assert addresses[..n] == addresses[..n - 1] + [addresses[n - 1]];
    }
  }

  lemma BulkRefreshTxCoherent(c: Caches, s: Server, addresses: seq<Address>)
    ensures TxCoherent(c, s) <==> TxCoherent(BulkRefresh(c, s, addresses, |addresses|), s)
  {
    BulkRefreshed(c, s, addresses, |addresses|, "");
  }

  /**
    * What a bulk refresh repairs, from any caches at all: an address then reads as the server has it if and only
    * if it is not an address once known to be empty that has a history now.
    */
  lemma BulkRefreshExact(c: Caches, s: Server, addresses: seq<Address>, a: Address)
    requires a in addresses
    ensures ReadHistory(BulkRefresh(c, s, addresses, |addresses|), s, a).1 == s.histories(a)
       <==> !(KnownEmpty(c, a) && s.histories(a) != [])
    ensures CoherentAt(BulkRefresh(c, s, addresses, |addresses|), s, a) <==> !(KnownEmpty(c, a) && s.histories(a) != [])
  {
    BulkRefreshed(c, s, addresses, |addresses|, a);
    assert addresses[..|addresses|] == addresses;
  }

  /** The stale flag happens: an address read while empty, then paid, then bulk refreshed, still reads as empty. */
  lemma StaleEmptyFlag(s: Server, paid: Server, a: Address, item: HistoryItem)
    requires s.histories(a) == [] && paid.histories(a) == [item]
    ensures var c := ReadHistory(NO_CACHES, s, a).0;
            ReadHistory(BulkRefresh(c, paid, [a], 1), paid, a).1 == []
    ensures var c := ClearFor(ReadHistory(NO_CACHES, s, a).0, a);
            ReadHistory(BulkRefresh(c, paid, [a], 1), paid, a).1 == [item]
  {
  }

  // ---------- whole runs ----------

  /** What can happen: on the server, a history changes or a transaction appears; in the wallet, reads and clears. */
  datatype Event =
    | HistoryChanges(address: Address, items: seq<HistoryItem>)
    | TxAppears(txid: TxId, hex: string)
    | ReadsHistory(address: Address)
    | ReadsTx(txid: TxId)
    | RefreshesBulk(addresses: seq<Address>)
    | LoadsTx(txid: TxId)
    | ClearsFor(address: Address)
    | ClearsAll

  /** The server, the caches, and the addresses that changed since they were last cleared. */
  datatype World = World(server: Server, caches: Caches, changed: set<Address>)

  function Happen(w: World, e: Event): World {
    match e
    case HistoryChanges(a, items) =>
      var before := w.server.histories;
      w.(server := w.server.(histories := b => if b == a then items else before(b)), changed := w.changed + {a})
    case TxAppears(txid, hex) =>
      var before := w.server.txHexes;
      if txid == "" then w else w.(server := w.server.(txHexes := t => if t == txid then Some(hex) else before(t)))
    case ReadsHistory(a) => w.(caches := ReadHistory(w.caches, w.server, a).0)
    case ReadsTx(txid) => w.(caches := ReadTx(w.caches, w.server, txid).0)
    case RefreshesBulk(addresses) => w.(caches := BulkRefresh(w.caches, w.server, addresses, |addresses|))
    case LoadsTx(txid) =>
      if w.server.txHexes(txid).Some?
      then w.(caches := w.caches.(txHex := w.caches.txHex[txid := w.server.txHexes(txid).value])) else w
    case ClearsFor(a) => w.(caches := ClearFor(w.caches, a), changed := w.changed - {a})
    case ClearsAll => w.(caches := NO_CACHES, changed := {})
  }

  /** The discipline: an address that changed is cleared before it is read; a transaction never changes. */
  predicate Allowed(w: World, e: Event) {
    match e
    case ReadsHistory(a) => a !in w.changed
    case RefreshesBulk(addresses) => forall a :: a in addresses ==> a !in w.changed
    case TxAppears(txid, hex) => w.server.txHexes(txid).None? || w.server.txHexes(txid) == Some(hex)
    case _ => true
  }

  function Run(w: World, events: seq<Event>, n: nat): World
    requires n <= |events|
  {
    if n == 0 then w else Happen(Run(w, events, n - 1), events[n - 1])
  }

  ghost predicate Disciplined(w: World, events: seq<Event>) {
    forall n :: 0 <= n < |events| ==> Allowed(Run(w, events, n), events[n])
  }

  /** The invariant: both history maps tell the truth about every address that has not changed since it was cleared. */
  ghost predicate Invariant(w: World) {
    TxCoherent(w.caches, w.server) && forall a :: a !in w.changed ==> CoherentAt(w.caches, w.server, a)
  }

  lemma StepKeepsInvariant(w: World, e: Event)
    requires Invariant(w) && Allowed(w, e)
    ensures Invariant(Happen(w, e))
  {
    match e
    case ReadsHistory(a) => ReadsAreCurrent(w.caches, w.server, a, "");
    case ReadsTx(txid) =>
      ReadsAreCurrent(w.caches, w.server, "", txid);
      assert Happen(w, e).server == w.server;
    case RefreshesBulk(addresses) =>
      var after := BulkRefresh(w.caches, w.server, addresses, |addresses|);
      BulkRefreshed(w.caches, w.server, addresses, |addresses|, "");
      forall a
        ensures a !in w.changed ==> CoherentAt(after, w.server, a)
      {
        BulkRefreshed(w.caches, w.server, addresses, |addresses|, a);
        assert addresses[..|addresses|] == addresses;
      }
    case _ =>
  }

  lemma {:induction false} RunKeepsInvariant(w: World, events: seq<Event>, n: nat)
    requires Invariant(w) && Disciplined(w, events) && n <= |events|
    ensures Invariant(Run(w, events, n))
  {
    if n > 0 {
      RunKeepsInvariant(w, events, n - 1);
      StepKeepsInvariant(Run(w, events, n - 1), events[n - 1]);
    }
  }

  /** Cache coherence over whole runs: from empty caches, every allowed read returns what the server has at that
      moment. */
  lemma EveryReadIsCurrent(s: Server, events: seq<Event>, n: nat)
    requires Disciplined(World(s, NO_CACHES, {}), events) && n < |events|
    ensures var w := Run(World(s, NO_CACHES, {}), events, n);
            && (events[n].ReadsHistory? ==>
                  ReadHistory(w.caches, w.server, events[n].address).1 == w.server.histories(events[n].address))
            && (events[n].ReadsTx? ==>
                  ReadTx(w.caches, w.server, events[n].txid).1 == FetchTx(w.server, events[n].txid))
  {
    var w0 := World(s, NO_CACHES, {});
    RunKeepsInvariant(w0, events, n);
    var w := Run(w0, events, n);
    assert Allowed(w, events[n]);
    match events[n]
    case ReadsHistory(a) => ReadsAreCurrent(w.caches, w.server, a, "");
    case ReadsTx(txid) => ReadsAreCurrent(w.caches, w.server, "", txid);
    case _ =>
  }
}

/** Choosing an address to pay from: the three searches of PurseAccessor. */
module PurseAccessor {
  import opened Wrappers
  import opened MachineIntegers
  import opened Transactions
  import opened FundsFinder

  type Address = string

  datatype AddressFunds = AddressFunds(address: Address, requested: U64, actual: U64, points: seq<OutPoint>)
  datatype AddressFundsInfo = AddressFundsInfo(address: Address, requested: U64, actual: U64)

  /** A point list worth 2^64 or more, or std::map::at without an entry. */
  datatype PurseError = ValuesOverflow | MissingBalance(address: Address)

  /** The servers: the unspent points of an address, given the amount asked for, and its confirmed balance. */
  datatype Servers = Servers(fetchUtxo: (Address, U64) -> seq<PointValue>, confirmed: Address -> I64)

  // ---------- what a search chooses ----------

  /** An address's offer; None where asking for it throws. */
  type Offer = Option<U64>

  datatype Choice = Chosen(i: nat) | Throws(at: nat) | Nothing

  predicate TooLittle(offer: Offer, requested: U64) {
    offer.Some? && offer.value < requested
  }

  /**
    * The choice the searches make among the offers: the first that covers the request, unless one before it throws;
    * or else, if none throws, the last of those with the greatest value; nothing if there is no address.
    */
  ghost predicate IsChoice(offers: seq<Offer>, requested: U64, c: Choice) {
    match c
    case Nothing => offers == []
    case Throws(n) => n < |offers| && offers[n].None? && forall k :: 0 <= k < n ==> TooLittle(offers[k], requested)
    case Chosen(i) =>
      && i < |offers| && offers[i].Some?
      && if offers[i].value >= requested then forall k :: 0 <= k < i ==> TooLittle(offers[k], requested)
         else forall k :: 0 <= k < |offers| ==>
                && TooLittle(offers[k], requested) && offers[k].value <= offers[i].value
                && (k > i ==> offers[k].value < offers[i].value)
  }

  lemma ChoiceUnique(offers: seq<Offer>, requested: U64, c: Choice, d: Choice)
    requires IsChoice(offers, requested, c) && IsChoice(offers, requested, d)
    ensures c == d
  {
  }

  /** Two ways of valuing addresses that agree below the request choose the same address. */
  lemma SameChoice(offers: seq<Offer>, others: seq<Offer>, requested: U64, c: Choice, d: Choice)
    requires |offers| == |others|
    requires forall k :: 0 <= k < |offers| ==>
               && offers[k].Some? && others[k].Some?
               && (offers[k].value >= requested <==> others[k].value >= requested)
               && (offers[k].value < requested ==> offers[k] == others[k])
    requires IsChoice(offers, requested, c) && IsChoice(others, requested, d)
    ensures c == d && !c.Throws?
  {
  }

  lemma NoChoice(requested: U64)
    ensures IsChoice([], requested, Nothing)
  {
  }

  /** The loops' step: an offer below the request replaces the best so far when it is not smaller. */
  lemma ChoiceStep(offers: seq<Offer>, n: nat, requested: U64, best: Choice)
    requires n < |offers| && IsChoice(offers[..n], requested, best) && !best.Throws?
    requires forall k :: 0 <= k < n ==> TooLittle(offers[k], requested)
    ensures offers[n].None? ==> IsChoice(offers, requested, Throws(n))
    ensures offers[n].Some? && offers[n].value >= requested ==> IsChoice(offers, requested, Chosen(n))
    ensures TooLittle(offers[n], requested) ==>
              IsChoice(offers[..n + 1], requested,
                       if best.Nothing? || offers[n].value >= offers[best.i].value then Chosen(n) else best)
  {
  }

  // ---------- the searches ----------

  const NO_FUNDS := AddressFunds("", 0, 0, [])

  /** What obtain_funds returns for an address, or throws. */
  function Obtained(s: Servers, requested: U64, address: Address): Result<AddressFunds, PurseError> {
    match FundsIn(requested, s.fetchUtxo(address, requested))
    case Failure(_) => Failure(ValuesOverflow)
    case Success(found) => Success(AddressFunds(address, requested, found.gathered, found.utxos))
  }

  /**
    * What an address's points give: the shortest prefix that covers the request, its points and its exact total; or no
    * points and the total of all, if that is too little. A list worth 2^64 or more throws if anything is requested.
    */
  ghost predicate IsObtained(points: seq<PointValue>, requested: U64, address: Address,
                             r: Result<AddressFunds, PurseError>)
  {
    && (r.Failure? <==> requested > 0 && Total(points) >= TWO_64)
    && (r.Failure? ==> r.error == ValuesOverflow)
    && (r.Success? ==>
          && r.value.address == address && r.value.requested == requested
          && (r.value.actual >= requested <==> Total(points) >= requested)
          && if r.value.actual >= requested then Covers(points, requested, r.value)
             else r.value.points == [] && r.value.actual == Total(points))
  }

  ghost predicate Covers(points: seq<PointValue>, requested: U64, funds: AddressFunds) {
    exists k :: 0 <= k <= |points| && ShortestCover(points, requested, k)
      && funds.points == Points(points[..k]) && funds.actual == PrefixTotal(points, k)
  }

  lemma ObtainedExactly(s: Servers, requested: U64, address: Address)
    ensures IsObtained(s.fetchUtxo(address, requested), requested, address, Obtained(s, requested, address))
  {
    var points := s.fetchUtxo(address, requested);
    FoundExactly(requested, points);
    TakenExactly(requested, points);
    if Obtained(s, requested, address).Success? && Total(points) >= requested {
      var k := Taken(requested, points);
      assert PrefixTotal(points, k) >= requested;
      assert Covers(points, requested, Obtained(s, requested, address).value);
    }
  }

  method ObtainFunds(s: Servers, requested: U64, address: Address) returns (r: Result<AddressFunds, PurseError>)
    ensures r == Obtained(s, requested, address)
    ensures IsObtained(s.fetchUtxo(address, requested), requested, address, r)
  {
    ObtainedExactly(s, requested, address);
    var found := FindFundsInPoints(requested, s.fetchUtxo(address, requested));
    if found.Failure? {
      return Failure(ValuesOverflow);
    }
    return Success(AddressFunds(address, requested, found.value.gathered, found.value.utxos));
  }

  function OfferOf(r: Result<AddressFunds, PurseError>): Offer {
    if r.Success? then Some(r.value.actual) else None
  }

  /** The funds chosen among what is offered, or the exception. */
  function FundsChosen(offered: seq<Result<AddressFunds, PurseError>>, c: Choice): Result<AddressFunds, PurseError>
    requires c.Chosen? ==> c.i < |offered|
    requires c.Throws? ==> c.at < |offered|
  {
    match c
    case Nothing => Success(NO_FUNDS)
    case Chosen(i) => offered[i]
    case Throws(n) => offered[n]
  }

  function Offers(offered: seq<Result<AddressFunds, PurseError>>): (r: seq<Offer>)
    ensures |r| == |offered| && forall k :: 0 <= k < |r| ==> r[k] == OfferOf(offered[k])
  {
    seq(|offered|, k requires 0 <= k < |offered| => OfferOf(offered[k]))
  }

  /** The result of a search over what the addresses offer, one by one. */
  ghost predicate IsSearch(offered: seq<Result<AddressFunds, PurseError>>, requested: U64,
                           r: Result<AddressFunds, PurseError>) {
    exists c :: IsChoice(Offers(offered), requested, c) && r == FundsChosen(offered, c)
  }

  function ObtainedOf(s: Servers, requested: U64, addresses: seq<Address>): (r: seq<Result<AddressFunds, PurseError>>)
    ensures |r| == |addresses| && forall k :: 0 <= k < |r| ==> r[k] == Obtained(s, requested, addresses[k])
  {
    seq(|addresses|, k requires 0 <= k < |addresses| => Obtained(s, requested, addresses[k]))
  }

  /** What each address offers is what its points give, and the result is the choice among these offers. */
  ghost predicate IsFundsSearch(s: Servers, requested: U64, addresses: seq<Address>,
                                r: Result<AddressFunds, PurseError>)
  {
    exists offered: seq<Result<AddressFunds, PurseError>> :: |offered| == |addresses|
      && (forall k :: 0 <= k < |addresses| ==>
            IsObtained(s.fetchUtxo(addresses[k], requested), requested, addresses[k], offered[k]))
      && Chooses(offered, requested, r)
  }

  /** The first offer that covers the request or throws; or else the last of the greatest; or else nothing. */
  ghost predicate Chooses(offered: seq<Result<AddressFunds, PurseError>>, requested: U64,
                          r: Result<AddressFunds, PurseError>)
  {
    if offered == [] then r == Success(AddressFunds("", 0, 0, []))
    else exists i :: 0 <= i < |offered| && r == offered[i] && IsTheChoice(offered, requested, i)
  }

  ghost predicate IsTheChoice(offered: seq<Result<AddressFunds, PurseError>>, requested: U64, i: nat)
    requires i < |offered|
  {
    if offered[i].Failure? || offered[i].value.actual >= requested then
      forall k :: 0 <= k < i ==> offered[k].Success? && offered[k].value.actual < requested
    else
      && (forall k :: 0 <= k < |offered| ==>
            offered[k].Success? && offered[k].value.actual <= offered[i].value.actual)
      && forall k :: i < k < |offered| ==> offered[k].value.actual < offered[i].value.actual
  }

  lemma SearchChooses(offered: seq<Result<AddressFunds, PurseError>>, requested: U64,
                      r: Result<AddressFunds, PurseError>)
    requires IsSearch(offered, requested, r)
    ensures Chooses(offered, requested, r)
  {
    var c :| IsChoice(Offers(offered), requested, c) && r == FundsChosen(offered, c);
    if c.Chosen? {
      assert IsTheChoice(offered, requested, c.i);
    } else if c.Throws? {
      assert IsTheChoice(offered, requested, c.at);
    }
  }

  lemma FundsSearch(s: Servers, requested: U64, addresses: seq<Address>, r: Result<AddressFunds, PurseError>)
    requires IsSearch(ObtainedOf(s, requested, addresses), requested, r)
    ensures IsFundsSearch(s, requested, addresses, r)
  {
    hide Obtained, IsObtained, IsSearch, Chooses;
    var offered := ObtainedOf(s, requested, addresses);
    SearchChooses(offered, requested, r);
    forall k | 0 <= k < |addresses|
      ensures IsObtained(s.fetchUtxo(addresses[k], requested), requested, addresses[k], offered[k])
    {
      ObtainedExactly(s, requested, addresses[k]);
    }
  }

  method LookForFunds(s: Servers, requested: U64, addresses: seq<Address>)
    returns (r: Result<AddressFunds, PurseError>)
    ensures IsSearch(ObtainedOf(s, requested, addresses), requested, r)
    ensures IsFundsSearch(s, requested, addresses, r)
  {
    hide IsChoice, Obtained, IsFundsSearch;
    ghost var offered := ObtainedOf(s, requested, addresses);
    ghost var offers := Offers(offered);
    var maxFunds := NO_FUNDS;
    ghost var best := Nothing;
    NoChoice(requested);
    assert offers[..0] == [];
    for n := 0 to |addresses|
      invariant forall k :: 0 <= k < n ==> TooLittle(offers[k], requested)
      invariant IsChoice(offers[..n], requested, best) && !best.Throws? && (best.Chosen? ==> best.i < n)
      invariant Success(maxFunds) == FundsChosen(offered, best)
    {
      var funds := ObtainFunds(s, requested, addresses[n]);
      assert funds == offered[n];
      ChoiceStep(offers, n, requested, best);
      if funds.Failure? || funds.value.actual >= requested {
        assert funds == FundsChosen(offered, if funds.Failure? then Throws(n) else Chosen(n));
        FundsSearch(s, requested, addresses, funds);
        return funds;
      }
      if funds.value.actual >= maxFunds.actual {
        maxFunds, best := funds.value, Chosen(n);
      }
    }
    assert offers[..|addresses|] == offers;
    FundsSearch(s, requested, addresses, Success(maxFunds));
    return Success(maxFunds);
  }

  /** What look_for_funds_by_balance compares: the balance, or the funds obtained if the balance seems enough. */
  function ByBalance(s: Servers, requested: U64, address: Address): Result<AddressFunds, PurseError> {
    var balance := Wrap(s.confirmed(address));
    if balance >= requested then Obtained(s, requested, address)
    else Success(AddressFunds(address, requested, balance, []))
  }

  function ByBalanceOf(s: Servers, requested: U64, addresses: seq<Address>): (r: seq<Result<AddressFunds, PurseError>>)
    ensures |r| == |addresses| && forall k :: 0 <= k < |r| ==> r[k] == ByBalance(s, requested, addresses[k])
  {
    seq(|addresses|, k requires 0 <= k < |addresses| => ByBalance(s, requested, addresses[k]))
  }

  /** The balances of the addresses asked about are recorded, converted to unsigned; others are left alone. */
  ghost predicate Recorded(s: Servers, addresses: seq<Address>, before: map<Address, U64>, after: map<Address, U64>) {
    && (forall a :: a in addresses ==> a in after && after[a] == Wrap(s.confirmed(a)))
    && (forall a :: a !in addresses ==> (a in after <==> a in before) && (a in after ==> after[a] == before[a]))
  }

  lemma RecordOne(s: Servers, addresses: seq<Address>, n: nat, before: map<Address, U64>, after: map<Address, U64>)
    requires n < |addresses| && Recorded(s, addresses[..n], before, after)
    ensures Recorded(s, addresses[..n + 1], before, after[addresses[n] := Wrap(s.confirmed(addresses[n]))])
  {
    assert addresses[..n + 1] == addresses[..n] + [addresses[n]];
  }

  /** An address whose unsigned balance is below the request offers that balance; any other what its points give. */
  ghost predicate IsBalanceOffer(s: Servers, requested: U64, address: Address, r: Result<AddressFunds, PurseError>) {
    if Wrap(s.confirmed(address)) < requested then
      r == Success(AddressFunds(address, requested, Wrap(s.confirmed(address)), []))
    else
      IsObtained(s.fetchUtxo(address, requested), requested, address, r)
  }

  /** The result is the choice among the offers by balance, and the balances of the first `asked` addresses are
      recorded: those up to the one chosen early, or all. */
  ghost predicate IsBalanceSearch(s: Servers, requested: U64, addresses: seq<Address>,
                                  r: Result<AddressFunds, PurseError>, asked: nat)
  {
    exists offered: seq<Result<AddressFunds, PurseError>> :: |offered| == |addresses| >= asked
      && (forall k :: 0 <= k < |addresses| ==> IsBalanceOffer(s, requested, addresses[k], offered[k]))
      && Chooses(offered, requested, r)
      && (forall k :: 0 <= k < asked - 1 ==> offered[k].Success? && offered[k].value.actual < requested)
      && if r.Success? && r.value.actual < requested then asked == |addresses|
         else if addresses == [] then asked == 0
         else asked > 0 && r == offered[asked - 1]
  }

  lemma BalanceSearch(s: Servers, requested: U64, addresses: seq<Address>, r: Result<AddressFunds, PurseError>,
                      asked: nat)
    requires IsSearch(ByBalanceOf(s, requested, addresses), requested, r) && asked <= |addresses|
    requires forall k :: 0 <= k < asked - 1 ==> TooLittle(Offers(ByBalanceOf(s, requested, addresses))[k], requested)
    requires if r.Success? && r.value.actual < requested then asked == |addresses|
             else if addresses == [] then asked == 0
             else asked > 0 && r == ByBalance(s, requested, addresses[asked - 1])
    ensures IsBalanceSearch(s, requested, addresses, r, asked)
  {
    hide Obtained, IsObtained, IsSearch, Chooses;
    var offered := ByBalanceOf(s, requested, addresses);
    SearchChooses(offered, requested, r);
    forall k | 0 <= k < |addresses|
      ensures IsBalanceOffer(s, requested, addresses[k], offered[k])
    {
      ObtainedExactly(s, requested, addresses[k]);
    }
    forall k | 0 <= k < asked - 1
      ensures offered[k].Success? && offered[k].value.actual < requested
    {
      assert Offers(offered)[k] == OfferOf(offered[k]);
    }
  }

  method LookForFundsByBalance(s: Servers, requested: U64, addresses: seq<Address>, known: map<Address, U64>)
    returns (r: Result<AddressFunds, PurseError>, addressToBalance: map<Address, U64>)
    ensures IsSearch(ByBalanceOf(s, requested, addresses), requested, r)
    ensures exists asked :: 0 <= asked <= |addresses| && IsBalanceSearch(s, requested, addresses, r, asked)
              && Recorded(s, addresses[..asked], known, addressToBalance)
  {
    hide IsChoice, Obtained, Recorded, IsBalanceSearch;
    ghost var offered := ByBalanceOf(s, requested, addresses);
    ghost var offers := Offers(offered);
    var maxFunds := NO_FUNDS;
    ghost var best := Nothing;
    NoChoice(requested);
    addressToBalance := known;
    NothingRecorded(s, known);
    assert offers[..0] == [] && addresses[..0] == [];
    for n := 0 to |addresses|
      invariant forall k :: 0 <= k < n ==> TooLittle(offers[k], requested)
      invariant IsChoice(offers[..n], requested, best) && !best.Throws? && (best.Chosen? ==> best.i < n)
      invariant Success(maxFunds) == FundsChosen(offered, best)
      invariant Recorded(s, addresses[..n], known, addressToBalance)
    {
      var a := addresses[n];
      var confirmed := s.confirmed(a);
      RecordOne(s, addresses, n, known, addressToBalance);
      addressToBalance := addressToBalance[a := Wrap(confirmed)];
      assert offered[n] == ByBalance(s, requested, a);
      ChoiceStep(offers, n, requested, best);
      if Wrap(confirmed) >= requested {
        var funds := ObtainFunds(s, requested, a);
        if funds.Failure? || funds.value.actual >= requested {
          assert funds == FundsChosen(offered, if funds.Failure? then Throws(n) else Chosen(n));
          BalanceSearch(s, requested, addresses, funds, n + 1);
          return funds, addressToBalance;
        }
        if funds.value.actual >= maxFunds.actual {
          maxFunds, best := funds.value, Chosen(n);
        }
      } else {
        if Wrap(confirmed) >= maxFunds.actual {
          maxFunds, best := AddressFunds(a, requested, Wrap(confirmed), []), Chosen(n);
        }
      }
    }
    assert offers[..|addresses|] == offers && addresses[..|addresses|] == addresses;
    assert best.Chosen? ==> TooLittle(offers[best.i], requested);
    NothingChosen(offers, requested, best);
    BalanceSearch(s, requested, addresses, Success(maxFunds), |addresses|);
    return Success(maxFunds), addressToBalance;
  }

  lemma NothingChosen(offers: seq<Offer>, requested: U64, c: Choice)
    requires IsChoice(offers, requested, c)
    ensures c.Nothing? ==> offers == []
  {
  }

  lemma NothingRecorded(s: Servers, known: map<Address, U64>)
    ensures Recorded(s, [], known, known)
  {
  }

  /** What the balance map offers for an address: std::map::at throws when there is no entry. */
  function Mapped(requested: U64, balances: map<Address, U64>, address: Address): Result<AddressFunds, PurseError> {
    if address in balances then Success(AddressFunds(address, requested, balances[address], []))
    else Failure(MissingBalance(address))
  }

  function MappedOf(requested: U64, balances: map<Address, U64>, addresses: seq<Address>)
    : (r: seq<Result<AddressFunds, PurseError>>)
    ensures |r| == |addresses| && forall k :: 0 <= k < |r| ==> r[k] == Mapped(requested, balances, addresses[k])
  {
    seq(|addresses|, k requires 0 <= k < |addresses| => Mapped(requested, balances, addresses[k]))
  }

  /** The result without points. */
  function Info(r: Result<AddressFunds, PurseError>): Result<AddressFundsInfo, PurseError> {
    match r
    case Failure(e) => Failure(e)
    case Success(f) => Success(AddressFundsInfo(f.address, f.requested, f.actual))
  }

  /** Address i is chosen by the map: it covers the request and is reached, or is the last of the greatest. */
  ghost predicate IsMapChoice(requested: U64, addresses: seq<Address>, balances: map<Address, U64>, i: nat)
    requires i < |addresses| && addresses[i] in balances
  {
    if balances[addresses[i]] >= requested then
      forall k :: 0 <= k < i ==> addresses[k] in balances && balances[addresses[k]] < requested
    else
      && (forall k :: 0 <= k < |addresses| ==>
            addresses[k] in balances && balances[addresses[k]] <= balances[addresses[i]])
      && forall k :: i < k < |addresses| ==> balances[addresses[k]] < balances[addresses[i]]
  }

  /** The result of the search in the map: the address chosen with its balance, or an exception at the first address
      without an entry if none before it covers the request, or nothing without addresses. */
  ghost predicate IsMapSearch(requested: U64, addresses: seq<Address>, balances: map<Address, U64>,
                              r: Result<AddressFundsInfo, PurseError>)
  {
    match r
    case Failure(e) =>
      exists n :: 0 <= n < |addresses| && e == MissingBalance(addresses[n]) && addresses[n] !in balances
        && forall k :: 0 <= k < n ==> addresses[k] in balances && balances[addresses[k]] < requested
    case Success(info) =>
      if addresses == [] then info == AddressFundsInfo("", 0, 0)
      else exists i :: 0 <= i < |addresses| && addresses[i] in balances
             && info == AddressFundsInfo(addresses[i], requested, balances[addresses[i]])
             && IsMapChoice(requested, addresses, balances, i)
  }

  lemma MapSearch(requested: U64, addresses: seq<Address>, balances: map<Address, U64>,
                  funds: Result<AddressFunds, PurseError>)
    requires IsSearch(MappedOf(requested, balances, addresses), requested, funds)
    ensures IsMapSearch(requested, addresses, balances, Info(funds))
  {
    hide IsSearch;
    var offered := MappedOf(requested, balances, addresses);
    SearchChooses(offered, requested, funds);
    if addresses != [] {
      var i :| 0 <= i < |offered| && funds == offered[i] && IsTheChoice(offered, requested, i);
      assert forall k :: 0 <= k < |addresses| ==> offered[k] == Mapped(requested, balances, addresses[k]);
      if offered[i].Success? {
        assert addresses[i] in balances;
        assert IsMapChoice(requested, addresses, balances, i);
      }
    }
  }

  method LookForAddressWithBalance(requested: U64, addresses: seq<Address>, balances: map<Address, U64>)
    returns (r: Result<AddressFundsInfo, PurseError>)
    ensures exists funds :: IsSearch(MappedOf(requested, balances, addresses), requested, funds) && r == Info(funds)
    ensures IsMapSearch(requested, addresses, balances, r)
  {
    hide IsChoice, IsMapSearch;
    ghost var offered := MappedOf(requested, balances, addresses);
    ghost var offers := Offers(offered);
    var maxFunds := AddressFundsInfo("", 0, 0);
    ghost var best := Nothing;
    NoChoice(requested);
    assert offers[..0] == [];
    for n := 0 to |addresses|
      invariant forall k :: 0 <= k < n ==> TooLittle(offers[k], requested)
      invariant IsChoice(offers[..n], requested, best) && !best.Throws? && (best.Chosen? ==> best.i < n)
      invariant Success(maxFunds) == Info(FundsChosen(offered, best))
    {
      var a := addresses[n];
      assert offered[n] == Mapped(requested, balances, a);
      ChoiceStep(offers, n, requested, best);
      if a !in balances {
        assert IsSearch(offered, requested, FundsChosen(offered, Throws(n)));
        MapSearch(requested, addresses, balances, FundsChosen(offered, Throws(n)));
        return Failure(MissingBalance(a));
      }
      var balance := balances[a];
      if balance >= requested {
        assert IsSearch(offered, requested, FundsChosen(offered, Chosen(n)));
        MapSearch(requested, addresses, balances, FundsChosen(offered, Chosen(n)));
        return Success(AddressFundsInfo(a, requested, balance));
      } else {
        if balance >= maxFunds.actual {
          maxFunds, best := AddressFundsInfo(a, requested, balance), Chosen(n);
        }
      }
    }
    assert offers[..|addresses|] == offers;
    assert IsSearch(offered, requested, FundsChosen(offered, best));
    MapSearch(requested, addresses, balances, FundsChosen(offered, best));
    return Success(maxFunds);
  }

  // ---------- the searches agree ----------

  /** Balance map, confirmed balances and unspent points tell the same story. */
  ghost predicate Consistent(s: Servers, requested: U64, addresses: seq<Address>, balances: map<Address, U64>) {
    forall a :: a in addresses ==>
      && a in balances
      && s.confirmed(a) == balances[a] == Total(s.fetchUtxo(a, requested))
  }

  /** One search has one result. */
  lemma SearchUnique(offered: seq<Result<AddressFunds, PurseError>>, requested: U64,
                     r: Result<AddressFunds, PurseError>, q: Result<AddressFunds, PurseError>)
    requires IsSearch(offered, requested, r) && IsSearch(offered, requested, q)
    ensures r == q
  {
    var c :| IsChoice(Offers(offered), requested, c) && r == FundsChosen(offered, c);
    var d :| IsChoice(Offers(offered), requested, d) && q == FundsChosen(offered, d);
    ChoiceUnique(Offers(offered), requested, c, d);
  }

  /** On consistent data the three ways to value an address agree: the points obtained, or below the request the
      balance. */
  lemma SameOffers(s: Servers, requested: U64, a: Address, balances: map<Address, U64>)
    requires a in balances && s.confirmed(a) == balances[a] == Total(s.fetchUtxo(a, requested))
    ensures Obtained(s, requested, a).Success? && ByBalance(s, requested, a) == Obtained(s, requested, a)
    ensures var funds := Obtained(s, requested, a).value;
            && funds.address == a
            && (funds.actual >= requested <==> balances[a] >= requested)
            && (funds.actual < requested ==> funds == AddressFunds(a, requested, balances[a], []))
  {
    WrapExact(s.confirmed(a));
    FoundExactly(requested, s.fetchUtxo(a, requested));
  }

  /** All three searches return the same address, and the two that fetch points return the same points of it. */
  lemma SearchesAgree(s: Servers, requested: U64, addresses: seq<Address>, balances: map<Address, U64>,
                      byFunds: Result<AddressFunds, PurseError>, byBalance: Result<AddressFunds, PurseError>,
                      byMap: Result<AddressFunds, PurseError>)
    requires Consistent(s, requested, addresses, balances)
    requires IsSearch(ObtainedOf(s, requested, addresses), requested, byFunds)
    requires IsSearch(ByBalanceOf(s, requested, addresses), requested, byBalance)
    requires IsSearch(MappedOf(requested, balances, addresses), requested, byMap)
    ensures byFunds.Success? && byBalance == byFunds && byMap.Success?
    ensures byMap.value.address == byFunds.value.address
    ensures byMap.value.actual >= requested <==> byFunds.value.actual >= requested
  {
    hide Obtained, ByBalance, IsSearch;
    var obtained, mapped := ObtainedOf(s, requested, addresses), MappedOf(requested, balances, addresses);
    forall n | 0 <= n < |addresses|
      ensures obtained[n].Success? && ByBalanceOf(s, requested, addresses)[n] == obtained[n]
      ensures SameButPoints(requested, obtained[n], mapped[n])
    {
      assert addresses[n] in addresses;
      SameOffers(s, requested, addresses[n], balances);
    }
    assert ByBalanceOf(s, requested, addresses) == obtained;
    SearchUnique(obtained, requested, byFunds, byBalance);
    SearchesAlike(obtained, mapped, requested, byFunds, byMap);
  }

  /** Offers of the same address, and of the same amount below the request. */
  predicate SameButPoints(requested: U64, a: Result<AddressFunds, PurseError>, b: Result<AddressFunds, PurseError>) {
    && a.Success? && b.Success? && a.value.address == b.value.address
    && (a.value.actual >= requested <==> b.value.actual >= requested)
    && (a.value.actual < requested ==> a == b)
  }

  lemma SearchesAlike(these: seq<Result<AddressFunds, PurseError>>, those: seq<Result<AddressFunds, PurseError>>,
                      requested: U64, r: Result<AddressFunds, PurseError>, q: Result<AddressFunds, PurseError>)
    requires |these| == |those| && forall n :: 0 <= n < |these| ==> SameButPoints(requested, these[n], those[n])
    requires IsSearch(these, requested, r) && IsSearch(those, requested, q)
    ensures SameButPoints(requested, r, q)
  {
    var c :| IsChoice(Offers(these), requested, c) && r == FundsChosen(these, c);
    var d :| IsChoice(Offers(those), requested, d) && q == FundsChosen(those, d);
    SameChoice(Offers(these), Offers(those), requested, c, d);
  }
}

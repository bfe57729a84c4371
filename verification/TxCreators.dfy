/** Building and signing: OnlineLockTxCreator, OnlineP2pkhTxCreator and OfflineUnlockTxCreator. */
module TxCreators {
  import opened Wrappers
  import opened MachineIntegers
  import opened Sequences
  import opened Transactions
  import opened Script
  import opened RedeemScript
  import opened FundsFinder

  datatype TxError =
    | InsufficientFunds(needed: U64, available: U64)
    | InvalidSourceAddress
    | InvalidTargetAddress
    | PointsOverflow

  /** A decoded address: libbitcoin's payment_address. */
  datatype PaymentAddress = PaymentAddress(valid: bool, isP2sh: bool, hash: Bytes) {
    predicate WellSized() {
      |hash| == 20
    }
  }

  // ---------- signatures ----------

  /** create_endorsement with SIGHASH_ALL: a DER signature and its hash type byte. */
  function Endorsement(c: Crypto, secret: Secret, tx: Tx, index: nat, code: Bytes): Bytes {
    c.sign(secret, MessageFor(c, tx, index, code, SIGHASH_ALL)) + [SIGHASH_ALL]
  }

  lemma EndorsementGood(c: Crypto, secret: Secret, tx: Tx, index: nat, code: Bytes)
    requires Lawful(c)
    ensures 9 <= |Endorsement(c, secret, tx, index, code)| <= 73
    ensures Endorsement(c, secret, tx, index, code)[|Endorsement(c, secret, tx, index, code)| - 1] == 1
    ensures SignatureGood(c, tx, index, code, c.publicKey(secret), Endorsement(c, secret, tx, index, code))
  {
  }

  ghost function KeyHashScript(c: Crypto, secret: Secret): Bytes
    requires Lawful(c)
  {
    PayToKeyHash(c.hash160(c.publicKey(secret)))
  }

  function KeyHashUnlocking(endorsement: Bytes, publicKey: Bytes): Bytes
    requires |endorsement| < TWO_32 && |publicKey| < TWO_32
  {
    Serialise([Push(endorsement), Push(publicKey)])
  }

  lemma ParsePayToKeyHash(hash: Bytes)
    requires |hash| == 20
    ensures Parse(PayToKeyHash(hash)) == Some([Dup, Hash160, Push(hash), EqualVerify, CheckSig])
    ensures !IsPayToScriptHash(PayToKeyHash(hash))
  {
    var ops := [Dup, Hash160, Push(hash), EqualVerify, CheckSig];
    ParseSerialise(ops);
    assert PayToKeyHash(hash)[0] == 0x76;
  }

  /** The bytes of the pay-to-key-hash script. */
  lemma PayToKeyHashBytes(hash: Bytes)
    requires |hash| == 20
    ensures PayToKeyHash(hash) == [0x76, 0xa9, 20] + hash + [0x88, 0xac]
  {
    hide Serialise, Serialisable;
    var ops := [Dup, Hash160, Push(hash), EqualVerify, CheckSig];
    KeyHashSerialisable(hash);
    assert ops[0..] == ops;
    SerialiseNext(ops, 0);
    SerialiseNext(ops, 1);
    SerialiseNext(ops, 2);
    SerialiseNext(ops, 3);
    SerialiseNext(ops, 4);
    SerialiseNext(ops, 5);
    assert SerialiseOp(ops[2]) == [20] + hash;
    RegroupKeyHash(hash);
  }

  lemma RegroupKeyHash(hash: Bytes)
    ensures [0x76] + ([0xa9] + (([20] + hash) + ([0x88] + ([0xac] + [])))) == [0x76, 0xa9, 20] + hash + [0x88, 0xac]
  {
  }

  lemma KeyHashSerialisable(hash: Bytes)
    requires |hash| == 20
    ensures forall op :: op in [Dup, Hash160, Push(hash), EqualVerify, CheckSig] ==> Serialisable(op)
  {
  }

  lemma RunPayToKeyHash(c: Crypto, tx: Tx, index: nat, hash: Bytes, stack: seq<Bytes>)
    requires Lawful(c) && index < |tx.inputs| && |hash| == 20
    ensures Accepts(RunScript(c, tx, index, PayToKeyHash(hash), stack))
       <==> && |stack| >= 2 && c.hash160(stack[0]) == hash
            && SignatureGood(c, tx, index, PayToKeyHash(hash), stack[0], stack[1])
  {
    hide SignatureGood, Run, Parse, Truthy;
    var code, ops := PayToKeyHash(hash), [Dup, Hash160, Push(hash), EqualVerify, CheckSig];
    ParsePayToKeyHash(hash);
    assert ops[0..] == ops;
    RunNext(c, tx, index, code, ops, 0, stack);
    if stack != [] {
      var s1 := [stack[0]] + stack;
      RunNext(c, tx, index, code, ops, 1, s1);
      assert s1[1..] == stack;
      var s2 := [c.hash160(stack[0])] + stack;
      RunNext(c, tx, index, code, ops, 2, s2);
      var s3 := [hash] + s2;
      assert s3[2..] == stack && s3[0] == hash && s3[1] == c.hash160(stack[0]);
      RunNext(c, tx, index, code, ops, 3, s3);
      RunNext(c, tx, index, code, ops, 4, stack);
      if |stack| >= 2 {
        var good := SignatureGood(c, tx, index, code, stack[0], stack[1]);
        RunNext(c, tx, index, code, ops, 5, [FromBool(good)] + stack[2..]);
        TruthyBool(good);
      }
    }
  }

  /** Exactly who can spend a key's output, by any script sig: it must leave a key with the hash of the output on top of
      a signature by that key. */
  lemma SpendsKeyHashExactly(c: Crypto, tx: Tx, index: nat, hash: Bytes)
    requires Lawful(c) && index < |tx.inputs| && |hash| == 20
    ensures Spends(c, tx, index, PayToKeyHash(hash))
       <==> var stack := RunScript(c, tx, index, tx.inputs[index].script, []);
            && stack.Some? && |stack.value| >= 2 && c.hash160(stack.value[0]) == hash
            && SignatureGood(c, tx, index, PayToKeyHash(hash), stack.value[0], stack.value[1])
  {
    hide SignatureGood, Run, Parse;
    ParsePayToKeyHash(hash);
    var stack := RunScript(c, tx, index, tx.inputs[index].script, []);
    if stack.Some? {
      RunPayToKeyHash(c, tx, index, hash, stack.value);
    }
  }

  /** An input with a signature and the key satisfies the pay-to-key-hash script of that key. */
  lemma SpendsKeyHash(c: Crypto, tx: Tx, index: nat, endorsement: Bytes, publicKey: Bytes)
    requires Lawful(c) && index < |tx.inputs|
    requires |endorsement| <= MAX_ELEMENT_SIZE && |publicKey| <= MAX_ELEMENT_SIZE
    requires tx.inputs[index].script == KeyHashUnlocking(endorsement, publicKey)
    ensures Spends(c, tx, index, PayToKeyHash(c.hash160(publicKey)))
       <==> SignatureGood(c, tx, index, PayToKeyHash(c.hash160(publicKey)), publicKey, endorsement)
  {
    hide SignatureGood, Run, Spends;
    RunTwoPushes(c, tx, index, endorsement, publicKey);
    SpendsKeyHashExactly(c, tx, index, c.hash160(publicKey));
  }

  /** Input k carries the signature for this transaction: which scripts were already written does not matter. */
  ghost predicate SignedInput(c: Crypto, secret: Secret, tx: Tx, k: nat)
    requires Lawful(c) && k < |tx.inputs|
  {
    var endorsement := Endorsement(c, secret, tx, k, KeyHashScript(c, secret));
    && |endorsement| <= 73
    && tx.inputs[k].script == KeyHashUnlocking(endorsement, c.publicKey(secret))
  }

  /** The signing loop of both online creators: input scripts are filled in one at a time. */
  method SignInputs(c: Crypto, secret: Secret, unsigned: Tx) returns (tx: Tx)
    requires Lawful(c)
    ensures SameButScripts(tx, unsigned)
    ensures forall i :: 0 <= i < |tx.inputs| ==> Spends(c, tx, i, KeyHashScript(c, secret))
  {
    tx := unsigned;
    var publicKey := c.publicKey(secret);
    var code := PayToKeyHash(c.hash160(publicKey));
    for i := 0 to |unsigned.inputs|
      invariant SameButScripts(tx, unsigned)
      invariant forall k :: 0 <= k < i ==> SignedInput(c, secret, tx, k)
    {
      var endorsement := Endorsement(c, secret, tx, i, code);
      EndorsementGood(c, secret, tx, i, code);
      ghost var before := tx;
      var input := tx.inputs[i].(script := KeyHashUnlocking(endorsement, publicKey));
      tx := tx.(inputs := tx.inputs[i := input]);
      forall k | 0 <= k <= i
        ensures SignedInput(c, secret, tx, k)
      {
        BlankingForgetsScripts(before, tx, k, code);
        assert Endorsement(c, secret, before, k, code) == Endorsement(c, secret, tx, k, code);
        assert k < i ==> SignedInput(c, secret, before, k);
      }
    }
    forall i | 0 <= i < |tx.inputs|
      ensures Spends(c, tx, i, KeyHashScript(c, secret))
    {
      assert SignedInput(c, secret, tx, i);
      EndorsementGood(c, secret, tx, i, code);
      SpendsKeyHash(c, tx, i, Endorsement(c, secret, tx, i, code), publicKey);
    }
  }

  // ---------- the online creators ----------

  /** A signed transaction that spends these points to output 0 and gives the rest, if any, back. */
  ghost predicate Funded(c: Crypto, tx: Tx, secret: Secret, utxos: seq<OutPoint>, output0: Output, refund: U64,
                         source: PaymentAddress)
    requires Lawful(c) && source.WellSized()
  {
    && tx.version == 1 && tx.locktime == 0
    && |tx.inputs| == |utxos|
    && (forall i :: 0 <= i < |utxos| ==>
          && tx.inputs[i].previous == utxos[i]
          && tx.inputs[i].sequence == 0xffff_fffe
          && Spends(c, tx, i, KeyHashScript(c, secret)))
    && tx.outputs == [output0] + if refund > 0 then [Output(refund, PayToKeyHash(source.hash))] else []
  }

  method BuildAndSign(c: Crypto, secret: Secret, utxos: seq<OutPoint>, output0: Output, refund: U64,
                      source: PaymentAddress)
    returns (tx: Tx)
    requires Lawful(c) && source.WellSized()
    ensures Funded(c, tx, secret, utxos, output0, refund, source)
  {
    tx := Tx(0, [], [], 0);
    for i := 0 to |utxos|
      invariant tx.outputs == [] && tx.locktime == 0 && |tx.inputs| == i
      invariant forall k :: 0 <= k < i ==> tx.inputs[k] == Input(utxos[k], [], 0xffff_fffe)
    {
      tx := tx.(inputs := tx.inputs + [Input(utxos[i], [], 0xffff_fffe)]);
    }
    tx := tx.(outputs := tx.outputs + [output0]);
    if refund > 0 {
      tx := tx.(outputs := tx.outputs + [Output(refund, PayToKeyHash(source.hash))]);
    }
    tx := tx.(version := 1);
    tx := SignInputs(c, secret, tx);
  }

  /** OnlineLockTxCreator::do_construct_p2sh_time_locking_tx_from_address. */
  method ConstructTimeLockingTx(c: Crypto, utxos: seq<OutPoint>, available: U64, source: PaymentAddress, secret: Secret,
                                amount: U64, fee: U64, lockUntil: U32)
    returns (r: Result<Tx, TxError>)
    requires Lawful(c) && source.WellSized()
    ensures utxos == [] ==> r == Failure(InsufficientFunds(Wrap(amount + fee), available))
    ensures utxos != [] && !source.valid ==> r == Failure(InvalidSourceAddress)
    ensures utxos != [] && source.valid ==>
              && r.Success?
              && Funded(c, r.value, secret, utxos,
                        Output(amount, LockScript(c, c.publicKey(secret), lockUntil)),
                        Wrap(available - Wrap(amount + fee)), source)
  {
    var publicKey := c.publicKey(secret);
    var needed := Wrap(amount + fee);
    if utxos == [] {
      return Failure(InsufficientFunds(needed, available));
    }
    var refund := Wrap(available - needed);
    var cltvScript := ToPayKeyHashPatternWithLock(publicKey, lockUntil);
    var scriptHash := c.hash160(Serialise(cltvScript));
    var output0 := Output(amount, PayToScriptHash(scriptHash));
    if !source.valid {
      return Failure(InvalidSourceAddress);
    }
    var tx := BuildAndSign(c, secret, utxos, output0, refund, source);
    r := Success(tx);
  }

  /** OnlineP2pkhTxCreator::do_construct_p2pkh_tx_from_address. */
  method ConstructKeyHashTx(c: Crypto, utxos: seq<OutPoint>, available: U64, source: PaymentAddress, secret: Secret,
                            amount: U64, fee: U64, target: PaymentAddress)
    returns (r: Result<Tx, TxError>)
    requires Lawful(c) && source.WellSized() && target.WellSized()
    ensures utxos == [] ==> r == Failure(InsufficientFunds(Wrap(amount + fee), available))
    ensures utxos != [] && (target.isP2sh || !target.valid) ==> r == Failure(InvalidTargetAddress)
    ensures utxos != [] && !target.isP2sh && target.valid && !source.valid ==> r == Failure(InvalidSourceAddress)
    ensures utxos != [] && !target.isP2sh && target.valid && source.valid ==>
              && r.Success?
              && Funded(c, r.value, secret, utxos, Output(amount, PayToKeyHash(target.hash)),
                        Wrap(available - Wrap(amount + fee)), source)
  {
    var needed := Wrap(amount + fee);
    if utxos == [] {
      return Failure(InsufficientFunds(needed, available));
    }
    var refund := Wrap(available - needed);
    if target.isP2sh {
      return Failure(InvalidTargetAddress);
    }
    if !target.valid {
      return Failure(InvalidTargetAddress);
    }
    var output0 := Output(amount, PayToKeyHash(target.hash));
    if !source.valid {
      return Failure(InvalidSourceAddress);
    }
    var tx := BuildAndSign(c, secret, utxos, output0, refund, source);
    r := Success(tx);
  }

  // ---------- value conservation ----------

  /** What an exact sum loses when it wraps: a multiple of 2^64, 0 if it fits. */
  function Lost(x: nat): nat {
    x - Wrap(x)
  }

  /**
    * What a funded transaction pays in fees, whatever wraps: the fee asked for, and what the sum of its inputs lost,
    * less what amount + fee lost. The refund output is there exactly when something is left.
    */
  lemma FeeConserved(chosen: seq<PointValue>, outputs: seq<Output>, output0: Output, fee: U64, refundScript: Bytes)
    requires Wrap(output0.value + fee) <= Wrap(Total(chosen))
    requires var refund := Wrap(Wrap(Total(chosen)) - Wrap(output0.value + fee));
             outputs == [output0] + if refund > 0 then [Output(refund, refundScript)] else []
    ensures Total(chosen) - OutputTotal(outputs) == fee + Lost(Total(chosen)) - Lost(output0.value + fee)
    ensures |outputs| == 2 <==> Wrap(Total(chosen)) > Wrap(output0.value + fee)
  {
    var refund := Wrap(Total(chosen)) - Wrap(output0.value + fee);
    WrapExact(refund);
    assert outputs[1..] == if refund > 0 then [Output(refund, refundScript)] else [];
    assert OutputTotal(outputs) == output0.value + OutputTotal(outputs[1..]);
    if refund > 0 {
      assert OutputTotal(outputs[1..]) == refund + OutputTotal(outputs[1..][1..]);
    }
  }

  /** Where the inputs' sum fits, the fee paid is the fee asked for exactly when amount + fee does not wrap; when it
      does, the outputs are worth 2^64 - fee more than the inputs. */
  lemma FeeExact(total: nat, amount: U64, fee: U64)
    requires total < TWO_64
    ensures fee + Lost(total) - Lost(amount + fee) == if amount + fee < TWO_64 then fee else fee - TWO_64
  {
    WrapExact(total);
    if amount + fee < TWO_64 {
      WrapExact(amount + fee);
    } else {
      WrapShift(amount + fee, -1);
      WrapExact(amount + fee - TWO_64);
    }
  }

  /**
    * A signed transaction from `chosen` to output 0. Its inputs are worth `fee` more than its outputs, up to what
    * wraps, and there is a refund exactly when something is left.
    */
  ghost predicate PaysFee(c: Crypto, tx: Tx, secret: Secret, chosen: seq<PointValue>, output0: Output, fee: U64)
    requires Lawful(c)
  {
    && |tx.inputs| == |chosen|
    && (forall i :: 0 <= i < |chosen| ==>
          tx.inputs[i].previous == chosen[i].point && Spends(c, tx, i, KeyHashScript(c, secret)))
    && 1 <= |tx.outputs| <= 2 && tx.outputs[0] == output0
    && Total(chosen) - OutputTotal(tx.outputs) == fee + Lost(Total(chosen)) - Lost(output0.value + fee)
    && (|tx.outputs| == 2 <==> Wrap(Total(chosen)) > Wrap(output0.value + fee))
  }

  lemma FundedPaysFee(c: Crypto, tx: Tx, secret: Secret, chosen: seq<PointValue>, output0: Output, fee: U64,
                      available: U64, source: PaymentAddress)
    requires Lawful(c) && source.WellSized() && available == Wrap(Total(chosen))
    requires Wrap(output0.value + fee) <= available
    requires Funded(c, tx, secret, Points(chosen), output0, Wrap(available - Wrap(output0.value + fee)), source)
    ensures PaysFee(c, tx, secret, chosen, output0, fee)
  {
    hide Spends, Lost, Total;
    FeeConserved(chosen, tx.outputs, output0, fee, PayToKeyHash(source.hash));
  }

  /** What is chosen from libbitcoin points. */
  function ChosenPoints(points: seq<PointValue>, amount: U64, fee: U64): seq<PointValue> {
    points[..Taken(Wrap(amount + fee), points)]
  }

  /** Paying from libbitcoin points, addresses aside: the list throws, or is too little, or something is chosen. */
  lemma PointsFound(points: seq<PointValue>, amount: U64, fee: U64)
    ensures var needed, chosen := Wrap(amount + fee), ChosenPoints(points, amount, fee);
            match FundsIn(needed, points)
            case Failure(_) => needed > 0 && Total(points) >= TWO_64
            case Success(found) =>
              && (needed == 0 || Total(points) < TWO_64)
              && (found.utxos == [] <==> !(0 < needed <= Total(points)))
              && (found.utxos == [] ==> found.gathered == if needed == 0 then 0 else Total(points))
              && (found.utxos != [] ==>
                    && ShortestCover(points, needed, |chosen|) && chosen <= points && needed <= found.gathered
                    && found.utxos == Points(chosen) && found.gathered == Total(chosen) == Wrap(Total(chosen)))
  {
    hide FundsIn, PrefixTotal, ShortestCover;
    FoundExactly(Wrap(amount + fee), points);
    TakenExactly(Wrap(amount + fee), points);
    NoTotal();
  }

  lemma NoTotal()
    ensures Total([]) == 0
  {
  }

  /** construct_p2sh_time_locking_tx_from_address over libbitcoin points. */
  method LockFromPoints(c: Crypto, points: seq<PointValue>, source: PaymentAddress, secret: Secret,
                        amount: U64, fee: U64, lockUntil: U32)
    returns (r: Result<Tx, TxError>)
    requires Lawful(c) && source.WellSized()
    ensures !source.valid ==> r == Failure(InvalidSourceAddress)
    ensures source.valid && Wrap(amount + fee) > 0 && Total(points) >= TWO_64 ==> r == Failure(PointsOverflow)
    ensures source.valid && Wrap(amount + fee) == 0 ==> r == Failure(InsufficientFunds(0, 0))
    ensures source.valid && Total(points) < Wrap(amount + fee) ==>
              r == Failure(InsufficientFunds(Wrap(amount + fee), Total(points)))
    ensures source.valid && 0 < Wrap(amount + fee) <= Total(points) < TWO_64 ==>
              && r.Success?
              && ShortestCover(points, Wrap(amount + fee), |ChosenPoints(points, amount, fee)|)
              && ChosenPoints(points, amount, fee) <= points
              && PaysFee(c, r.value, secret, ChosenPoints(points, amount, fee),
                         Output(amount, LockScript(c, c.publicKey(secret), lockUntil)), fee)
  {
    hide Spends, FundsIn, ShortestCover, PaysFee, Funded, ChosenPoints, Total;
    if !source.valid {
      return Failure(InvalidSourceAddress);
    }
    var needed := Wrap(amount + fee);
    PointsFound(points, amount, fee);
    var found := FindFundsInPoints(needed, points);
    if found.Failure? {
      return Failure(PointsOverflow);
    }
    var utxos, available := found.value.utxos, found.value.gathered;
    r := ConstructTimeLockingTx(c, utxos, available, source, secret, amount, fee, lockUntil);
    if r.Success? {
      FundedPaysFee(c, r.value, secret, ChosenPoints(points, amount, fee),
                    Output(amount, LockScript(c, c.publicKey(secret), lockUntil)), fee, available, source);
    }
  }

  /** It happens: an amount 10 below 2^64 and a fee of 20 wrap to 10, which one point of 100 covers; and the transaction
      that is signed pays out 2^64 - 20 more than the 100 it spends. */
  method WrappedFeePaysOut(c: Crypto, point: OutPoint, source: PaymentAddress, secret: Secret, lockUntil: U32)
    returns (r: Result<Tx, TxError>)
    requires Lawful(c) && source.WellSized() && source.valid
    ensures r.Success? && |r.value.inputs| == 1 && r.value.inputs[0].previous == point
    ensures OutputTotal(r.value.outputs) == 100 + TWO_64 - 20
  {
    hide Spends, FundsIn, ShortestCover, ChosenPoints;
    var points := [PointValue(point, 100)];
    OnePointCovers(points[0]);
    r := LockFromPoints(c, points, source, secret, TWO_64 - 10, 20, lockUntil);
    FeeExact(100, TWO_64 - 10, 20);
  }

  lemma OnePointCovers(p: PointValue)
    requires p.value == 100
    ensures Wrap(TWO_64 - 10 + 20) == 10 && Total([p]) == 100
    ensures ChosenPoints([p], TWO_64 - 10, 20) == [p]
  {
    WrapShift(10, 1);
    assert PrefixTotal([p], 0) == 0 && PrefixTotal([p], 1) == 100;
    assert Taken(10, [p]) == 1;
  }

  /** construct_p2pkh_tx_from_address over libbitcoin points. */
  method PayFromPoints(c: Crypto, points: seq<PointValue>, source: PaymentAddress, secret: Secret,
                       amount: U64, fee: U64, target: PaymentAddress)
    returns (r: Result<Tx, TxError>)
    requires Lawful(c) && source.WellSized() && target.WellSized()
    ensures !source.valid ==> r == Failure(InvalidSourceAddress)
    ensures source.valid && Wrap(amount + fee) > 0 && Total(points) >= TWO_64 ==> r == Failure(PointsOverflow)
    ensures source.valid && Wrap(amount + fee) == 0 ==> r == Failure(InsufficientFunds(0, 0))
    ensures source.valid && Total(points) < Wrap(amount + fee) ==>
              r == Failure(InsufficientFunds(Wrap(amount + fee), Total(points)))
    ensures source.valid && 0 < Wrap(amount + fee) <= Total(points) < TWO_64 ==>
              if target.isP2sh || !target.valid then r == Failure(InvalidTargetAddress)
              else
                && r.Success?
                && ShortestCover(points, Wrap(amount + fee), |ChosenPoints(points, amount, fee)|)
                && ChosenPoints(points, amount, fee) <= points
                && PaysFee(c, r.value, secret, ChosenPoints(points, amount, fee),
                           Output(amount, PayToKeyHash(target.hash)), fee)
  {
    hide Spends, FundsIn, ShortestCover, PaysFee, Funded, ChosenPoints, Total;
    if !source.valid {
      return Failure(InvalidSourceAddress);
    }
    var needed := Wrap(amount + fee);
    PointsFound(points, amount, fee);
    var found := FindFundsInPoints(needed, points);
    if found.Failure? {
      return Failure(PointsOverflow);
    }
    var utxos, available := found.value.utxos, found.value.gathered;
    r := ConstructKeyHashTx(c, utxos, available, source, secret, amount, fee, target);
    if r.Success? {
      FundedPaysFee(c, r.value, secret, ChosenPoints(points, amount, fee),
                    Output(amount, PayToKeyHash(target.hash)), fee, available, source);
    }
  }

  /** The outpoints that a transaction spends. */
  function SpentBy(tx: Tx): (r: seq<OutPoint>)
    ensures |r| == |tx.inputs| && forall k :: 0 <= k < |r| ==> r[k] == tx.inputs[k].previous
  {
    seq(|tx.inputs|, k requires 0 <= k < |tx.inputs| => tx.inputs[k].previous)
  }

  /** The transaction spends exactly the listed outputs that have a value, in order, none of them twice if none is
      listed twice, at the fee of FeeConserved. */
  ghost predicate SpendsAllOfValue(tx: Tx, inputUtxos: seq<PointValue>, amount: U64, fee: U64) {
    && TakesValued(inputUtxos, SpentBy(tx))
    && (Distinct(Points(inputUtxos)) ==> Distinct(SpentBy(tx)))
    && Sum(Values(inputUtxos)) - OutputTotal(tx.outputs)
       == fee + Lost(Sum(Values(inputUtxos))) - Lost(amount + fee)
  }

  lemma AllOfValueSpent(c: Crypto, tx: Tx, secret: Secret, inputUtxos: seq<PointValue>, output0: Output, fee: U64)
    requires Lawful(c) && PaysFee(c, tx, secret, ChosenUtxos(inputUtxos), output0, fee)
    ensures SpendsAllOfValue(tx, inputUtxos, output0.value, fee)
  {
    hide Spends, TakesValued, Distinct, Sum, Lost;
    PositiveTaken(inputUtxos);
    AllOfValue(inputUtxos);
    assert SpentBy(tx) == Points(ChosenUtxos(inputUtxos));
    if Distinct(Points(inputUtxos)) {
      TakenDistinct(inputUtxos, SpentBy(tx));
    }
    PrefixTotalIsSum(inputUtxos, |inputUtxos|);
    assert inputUtxos[..|inputUtxos|] == inputUtxos;
  }

  lemma UtxosPaid(c: Crypto, tx: Tx, secret: Secret, inputUtxos: seq<PointValue>, output0: Output, fee: U64,
                  available: U64, source: PaymentAddress)
    requires Lawful(c) && source.WellSized() && available == Wrap(Total(ChosenUtxos(inputUtxos)))
    requires Wrap(output0.value + fee) <= available
    requires Funded(c, tx, secret, Points(ChosenUtxos(inputUtxos)), output0,
                    Wrap(available - Wrap(output0.value + fee)), source)
    ensures PaysFee(c, tx, secret, ChosenUtxos(inputUtxos), output0, fee)
    ensures SpendsAllOfValue(tx, inputUtxos, output0.value, fee)
  {
    hide Spends, Funded, PaysFee, SpendsAllOfValue, Total, ChosenUtxos;
    FundedPaysFee(c, tx, secret, ChosenUtxos(inputUtxos), output0, fee, available, source);
    AllOfValueSpent(c, tx, secret, inputUtxos, output0, fee);
  }

  /** What is chosen from Electrum UTXOs: every output of value. */
  function ChosenUtxos(inputUtxos: seq<PointValue>): seq<PointValue> {
    Positive(inputUtxos, |inputUtxos|)
  }

  /** construct_p2sh_time_locking_tx_from_address over Electrum UTXOs: every output of value is spent. */
  method LockFromUtxos(c: Crypto, inputUtxos: seq<PointValue>, source: PaymentAddress, secret: Secret,
                       amount: U64, fee: U64, lockUntil: U32)
    returns (r: Result<Tx, TxError>)
    requires Lawful(c) && source.WellSized()
    ensures Total(inputUtxos) == 0 || Wrap(amount + fee) > Wrap(Total(inputUtxos)) ==>
              r == Failure(InsufficientFunds(Wrap(amount + fee), Wrap(Total(inputUtxos))))
    ensures Total(inputUtxos) > 0 && Wrap(amount + fee) <= Wrap(Total(inputUtxos)) ==>
              if !source.valid then r == Failure(InvalidSourceAddress)
              else
                && r.Success?
                && SpendsAllOfValue(r.value, inputUtxos, amount, fee)
                && Total(ChosenUtxos(inputUtxos)) == Total(inputUtxos)
                && PaysFee(c, r.value, secret, ChosenUtxos(inputUtxos),
                           Output(amount, LockScript(c, c.publicKey(secret), lockUntil)), fee)
  {
    hide Spends, PaysFee, Funded, Total, ChosenUtxos, SpendsAllOfValue, TakesValued, Sum, Values;
    hide PayToScriptHash, TimeLockBytes, PayToKeyHash;
    var needed := Wrap(amount + fee);
    AllOfValue(inputUtxos);
    var utxos, available := FindFundsInUtxos(needed, inputUtxos);
    r := ConstructTimeLockingTx(c, utxos, available, source, secret, amount, fee, lockUntil);
    if r.Success? {
      UtxosPaid(c, r.value, secret, inputUtxos, Output(amount, LockScript(c, c.publicKey(secret), lockUntil)), fee,
                available, source);
    }
  }

  /** construct_p2pkh_tx_from_address over Electrum UTXOs. */
  method PayFromUtxos(c: Crypto, inputUtxos: seq<PointValue>, source: PaymentAddress, secret: Secret,
                      amount: U64, fee: U64, target: PaymentAddress)
    returns (r: Result<Tx, TxError>)
    requires Lawful(c) && source.WellSized() && target.WellSized()
    ensures Total(inputUtxos) == 0 || Wrap(amount + fee) > Wrap(Total(inputUtxos)) ==>
              r == Failure(InsufficientFunds(Wrap(amount + fee), Wrap(Total(inputUtxos))))
    ensures Total(inputUtxos) > 0 && Wrap(amount + fee) <= Wrap(Total(inputUtxos)) ==>
              if target.isP2sh || !target.valid then r == Failure(InvalidTargetAddress)
              else if !source.valid then r == Failure(InvalidSourceAddress)
              else
                && r.Success?
                && SpendsAllOfValue(r.value, inputUtxos, amount, fee)
                && Total(ChosenUtxos(inputUtxos)) == Total(inputUtxos)
                && PaysFee(c, r.value, secret, ChosenUtxos(inputUtxos),
                           Output(amount, PayToKeyHash(target.hash)), fee)
  {
    hide Spends, PaysFee, Funded, Total, ChosenUtxos, SpendsAllOfValue, TakesValued, Sum, Values;
    hide PayToScriptHash, TimeLockBytes, PayToKeyHash;
    var needed := Wrap(amount + fee);
    AllOfValue(inputUtxos);
    var utxos, available := FindFundsInUtxos(needed, inputUtxos);
    r := ConstructKeyHashTx(c, utxos, available, source, secret, amount, fee, target);
    if r.Success? {
      UtxosPaid(c, r.value, secret, inputUtxos, Output(amount, PayToKeyHash(target.hash)), fee,
                available, source);
    }
  }

  lemma AllOfValue(inputUtxos: seq<PointValue>)
    ensures ChosenUtxos(inputUtxos) == Positive(inputUtxos, |inputUtxos|)
    ensures Total(ChosenUtxos(inputUtxos)) == Total(inputUtxos)
    ensures Points(ChosenUtxos(inputUtxos)) == [] <==> Total(inputUtxos) == 0
  {
    TotalOfPositive(inputUtxos, |inputUtxos|);
    if ChosenUtxos(inputUtxos) != [] {
      PositiveLast(inputUtxos, |inputUtxos|);
    }
  }

  lemma {:induction false} PositiveLast(points: seq<PointValue>, k: nat)
    requires k <= |points| && Positive(points, k) != []
    ensures var positive := Positive(points, k); positive[|positive| - 1].value > 0
  {
    if points[k - 1].value == 0 {
      PositiveLast(points, k - 1);
    }
  }

  // ---------- unlocking ----------

  /** The transaction of OfflineUnlockTxCreator, input script aside. */
  ghost predicate UnlockShape(tx: Tx, lockTxId: Bytes, amount: U64, lockUntil: U32, target: PaymentAddress)
    requires target.WellSized()
  {
    && tx.version == 1 && tx.locktime == lockUntil
    && |tx.inputs| == 1
    && tx.inputs[0].previous == OutPoint(lockTxId, 0)
    && tx.inputs[0].sequence == 0
    && tx.outputs == [Output(amount, PayToKeyHash(target.hash))]
  }

  /** Its script sig: a signature over the redeem script, then the redeem script. */
  ghost predicate SignedForLock(c: Crypto, tx: Tx, index: nat, secret: Secret, lockUntil: U32)
    requires Lawful(c)
  {
    var redeem := TimeLockBytes(c.publicKey(secret), lockUntil);
    var endorsement := Endorsement(c, secret, tx, index, redeem);
    && index < |tx.inputs| && |redeem| <= 75 && |endorsement| <= 73
    && tx.inputs[index].script == Serialise([Push(endorsement), Push(redeem)])
  }

  /** A script sig with an honest signature opens the lock exactly when CHECKLOCKTIMEVERIFY lets the transaction
      through. */
  lemma HonestUnlock(c: Crypto, tx: Tx, index: nat, secret: Secret, lockUntil: U32)
    requires Lawful(c) && SignedForLock(c, tx, index, secret, lockUntil)
    requires NoSecondPreimage(c, TimeLockBytes(c.publicKey(secret), lockUntil))
    ensures Spends(c, tx, index, LockScript(c, c.publicKey(secret), lockUntil))
       <==> LockTimeReached(LittleEndian(lockUntil, 4), tx, index)
  {
    hide SignatureGood, LockTimeReached, Run, Parse, Spends, Serialise, MessageFor;
    var redeem := TimeLockBytes(c.publicKey(secret), lockUntil);
    EndorsementGood(c, secret, tx, index, redeem);
    RunTwoPushes(c, tx, index, Endorsement(c, secret, tx, index, redeem), redeem);
    SpendsLockExactly(c, tx, index, c.publicKey(secret), lockUntil);
  }

  /** The script sig opens no lock of another key or another lock time. */
  lemma UnlocksOnlyItsOwn(c: Crypto, tx: Tx, index: nat, secret: Secret, lockUntil: U32, otherKey: Bytes,
                          otherTime: U32)
    requires Lawful(c) && SignedForLock(c, tx, index, secret, lockUntil)
    requires |otherKey| == 33 || |otherKey| == 65
    requires NoSecondPreimage(c, TimeLockBytes(otherKey, otherTime))
    requires Spends(c, tx, index, LockScript(c, otherKey, otherTime))
    ensures otherKey == c.publicKey(secret) && otherTime == lockUntil
  {
    var redeem := TimeLockBytes(c.publicKey(secret), lockUntil);
    RunTwoPushes(c, tx, index, Endorsement(c, secret, tx, index, redeem), redeem);
    SpendsLockExactly(c, tx, index, otherKey, otherTime);
    TimeLockInjective(c.publicKey(secret), lockUntil, otherKey, otherTime);
  }

  /** OfflineUnlockTxCreator::construct_unlock_tx. */
  method ConstructUnlockTx(c: Crypto, secret: Secret, lockTxId: Bytes, amount: U64, lockUntil: U32,
                           target: PaymentAddress)
    returns (r: Result<Tx, TxError>)
    requires Lawful(c) && target.WellSized()
    ensures target.isP2sh || !target.valid ==> r == Failure(InvalidTargetAddress)
    ensures !target.isP2sh && target.valid ==>
              && r.Success?
              && UnlockShape(r.value, lockTxId, amount, lockUntil, target)
              && SignedForLock(c, r.value, 0, secret, lockUntil)
  {
    var publicKey := c.publicKey(secret);
    var input1 := Input(OutPoint(lockTxId, 0), [], 0);
    if target.isP2sh {
      return Failure(InvalidTargetAddress);
    }
    if !target.valid {
      return Failure(InvalidTargetAddress);
    }
    var output1 := Output(amount, PayToKeyHash(target.hash));
    var tx := Tx(0, [], [], 0);
    tx := tx.(inputs := tx.inputs + [input1]);
    tx := tx.(outputs := tx.outputs + [output1]);
    tx := tx.(locktime := lockUntil);
    tx := tx.(version := 1);
    var redeemScript := ToPayKeyHashPatternWithLock(publicKey, lockUntil);
    var redeem := Serialise(redeemScript);
    ParseTimeLock(publicKey, lockUntil);
    var endorsement := Endorsement(c, secret, tx, 0, redeem);
    EndorsementGood(c, secret, tx, 0, redeem);
    ghost var before := tx;
    tx := tx.(inputs := tx.inputs[0 := tx.inputs[0].(script := Serialise([Push(endorsement), Push(redeem)]))]);
    BlankingForgetsScripts(before, tx, 0, redeem);
    r := Success(tx);
  }

  /**
    * Lock then unlock: with the same key and lock time, the unlocking transaction spends output 0 of the
    * locking one if and only if the lock time is below 2^31.
    */
  lemma LockThenUnlock(c: Crypto, lockTx: Tx, unlockTx: Tx, secret: Secret, utxos: seq<OutPoint>, amount: U64,
                       refund: U64, source: PaymentAddress, unlockAmount: U64, lockUntil: U32,
                       target: PaymentAddress)
    requires Lawful(c) && source.WellSized() && target.WellSized()
    requires NoSecondPreimage(c, TimeLockBytes(c.publicKey(secret), lockUntil))
    requires Funded(c, lockTx, secret, utxos, Output(amount, LockScript(c, c.publicKey(secret), lockUntil)),
                    refund, source)
    requires UnlockShape(unlockTx, c.txid(lockTx), unlockAmount, lockUntil, target)
    requires SignedForLock(c, unlockTx, 0, secret, lockUntil)
    ensures unlockTx.inputs[0].previous == OutPoint(c.txid(lockTx), 0)
    ensures Spends(c, unlockTx, 0, lockTx.outputs[0].script) <==> lockUntil < TWO_31
  {
    assert lockTx.outputs[0].script == LockScript(c, c.publicKey(secret), lockUntil);
    HonestUnlock(c, unlockTx, 0, secret, lockUntil);
    LockTimeMeaning(lockUntil, unlockTx, 0);
  }

  /**
    * The bound is exact: an owner who does not wait, and signs with locktime 0, opens the lock if and only if it is
    * until 0 or until 2^31 (January 2038).
    */
  lemma LocktimeZeroOpens(c: Crypto, secret: Secret, lockUntil: U32, coin: OutPoint, outputs: seq<Output>)
    returns (tx: Tx)
    requires Lawful(c)
    requires NoSecondPreimage(c, TimeLockBytes(c.publicKey(secret), lockUntil))
    ensures tx.locktime == 0 && tx.outputs == outputs && |tx.inputs| == 1 && tx.inputs[0].previous == coin
    ensures Spends(c, tx, 0, LockScript(c, c.publicKey(secret), lockUntil)) <==> lockUntil == 0 || lockUntil == TWO_31
  {
    hide SignatureGood, Spends;
    var publicKey := c.publicKey(secret);
    var redeem := TimeLockBytes(publicKey, lockUntil);
    var before := Tx(1, [Input(coin, [], 0)], outputs, 0);
    ParseTimeLock(publicKey, lockUntil);
    EndorsementGood(c, secret, before, 0, redeem);
    var scriptSig := Serialise([Push(Endorsement(c, secret, before, 0, redeem)), Push(redeem)]);
    tx := Tx(1, [Input(coin, scriptSig, 0)], outputs, 0);
    BlankingForgetsScripts(before, tx, 0, redeem);
    HonestUnlock(c, tx, 0, secret, lockUntil);
    LockTimeMeaning(lockUntil, tx, 0);
  }
}

/** The time-lock redeem script, and exactly who can spend an output locked with it. */
module RedeemScript {
  import opened Wrappers
  import opened MachineIntegers
  import opened Transactions
  import opened Script

  function TimeLockOps(publicKey: Bytes, lockUntil: U32): seq<Op> {
    [Push(LittleEndian(lockUntil, 4)), CheckLockTimeVerify, Drop, Push(publicKey), CheckSig]
  }

  /** RedeemScript::to_pay_key_hash_pattern_with_lock: the lock time is written into a 4-byte buffer in place. */
  method ToPayKeyHashPatternWithLock(publicKey: Bytes, lockUntil: U32) returns (ops: seq<Op>)
    ensures ops == TimeLockOps(publicKey, lockUntil)
  {
    var lockUntilArray := new Byte[4];
    WriteFourBytesLittleEndian(lockUntilArray, lockUntil);
    ops := [Push(lockUntilArray[..]), CheckLockTimeVerify, Drop, Push(publicKey), CheckSig];
  }

  method WriteFourBytesLittleEndian(buffer: array<Byte>, value: U32)
    requires buffer.Length == 4
    modifies buffer
    ensures buffer[..] == LittleEndian(value, 4)
    ensures FromLittleEndian(buffer[..]) == value
  {
    var rest: nat := value;
    for i := 0 to 4
      invariant buffer[..i] + LittleEndian(rest, 4 - i) == LittleEndian(value, 4)
    {
      assert LittleEndian(rest, 4 - i) == [rest % 256] + LittleEndian(rest / 256, 3 - i);
      buffer[i] := rest % 256;
      assert buffer[..i + 1] == buffer[..i] + [rest % 256];
      rest := rest / 256;
    }
    assert buffer[..4] == buffer[..];
    assert Power256(4) == TWO_32 by {
      assert Power256(3) == 256 * Power256(2);
    }
    LittleEndianRoundTrip(value, 4, TWO_32);
  }

  function TimeLockBytes(publicKey: Bytes, lockUntil: U32): Bytes
    requires |publicKey| == 33 || |publicKey| == 65
  {
    Serialise(TimeLockOps(publicKey, lockUntil))
  }

  /** script::to_pay_script_hash_pattern, serialised. */
  function PayToScriptHash(hash: Bytes): Bytes
    requires |hash| == 20
  {
    Serialise([Hash160, Push(hash), Equal])
  }

  /** script::to_pay_key_hash_pattern, serialised. */
  function PayToKeyHash(hash: Bytes): Bytes
    requires |hash| == 20
  {
    Serialise([Dup, Hash160, Push(hash), EqualVerify, CheckSig])
  }

  /** The output script that locks funds to a key until a time. */
  ghost function LockScript(c: Crypto, publicKey: Bytes, lockUntil: U32): Bytes
    requires Lawful(c) && (|publicKey| == 33 || |publicKey| == 65)
  {
    PayToScriptHash(c.hash160(TimeLockBytes(publicKey, lockUntil)))
  }

  // ---------- the lock time as the script machine reads it ----------

  /** The four bytes are read back signed, so from 2^31 on the lock time changes its meaning. */
  lemma LockTimeReadBack(lockUntil: U32)
    ensures ScriptNumber(LittleEndian(lockUntil, 4))
         == if lockUntil < TWO_31 then lockUntil else TWO_31 - lockUntil
  {
    hide LittleEndian, FromLittleEndian;
    var b0, b1, b2, b3 := lockUntil % 256, lockUntil / 256 % 256, lockUntil / 65536 % 256, lockUntil / 16777216;
    FourBytes(lockUntil);
    BytesSum(lockUntil);
    var b := [b0, b1, b2, b3];
    FromFourBytes(b0, b1, b2, b3);
    if b3 >= 128 {
      assert b[3 := b3 - 128] == [b0, b1, b2, b3 - 128];
      FromFourBytes(b0, b1, b2, b3 - 128);
    }
  }

  lemma BytesSum(n: U32)
    ensures n == n % 256 + 256 * (n / 256 % 256) + 65536 * (n / 65536 % 256) + 16777216 * (n / 16777216)
    ensures n / 16777216 >= 128 <==> n >= TWO_31
  {
    assert n / 256 / 256 == n / 65536;
    assert n / 65536 / 256 == n / 16777216;
  }

  lemma FourBytes(n: U32)
    ensures LittleEndian(n, 4) == [n % 256, n / 256 % 256, n / 65536 % 256, n / 16777216]
  {
    assert n / 256 / 256 == n / 65536;
    assert n / 65536 / 256 == n / 16777216;
    assert LittleEndian(n, 4) == [n % 256] + LittleEndian(n / 256, 3);
    assert LittleEndian(n / 256, 3) == [n / 256 % 256] + LittleEndian(n / 65536, 2);
    assert LittleEndian(n / 65536, 2) == [n / 65536 % 256] + LittleEndian(n / 16777216, 1);
    assert LittleEndian(n / 16777216, 1) == [n / 16777216] + LittleEndian(0, 0);
  }

  lemma FromFourBytes(b0: Byte, b1: Byte, b2: Byte, b3: Byte)
    ensures FromLittleEndian([b0, b1, b2, b3]) == b0 + 256 * b1 + 65536 * b2 + 16777216 * b3
  {
    assert [b0, b1, b2, b3][1..] == [b1, b2, b3];
    assert [b1, b2, b3][1..] == [b2, b3];
    assert [b2, b3][1..] == [b3];
    assert [b3][1..] == [];
    assert FromLittleEndian([b3]) == b3;
    assert FromLittleEndian([b2, b3]) == b2 + 256 * b3;
  }

  /** The transactions the redeem script lets through: those of the lock time's class that have reached it. */
  predicate Reached(tx: Tx, index: nat, lockUntil: U32)
    requires index < |tx.inputs|
  {
    && tx.inputs[index].sequence != 0xffff_ffff
    && lockUntil <= tx.locktime
    && (lockUntil < 500_000_000 <==> tx.locktime < 500_000_000)
  }

  /**
    * What CHECKLOCKTIMEVERIFY does with the four bytes, for every 32-bit lock time: below 2^31 it
    * enforces it; 2^31 reads as negative zero, which asks only for a height-class locktime; above, nothing passes.
    */
  lemma LockTimeMeaning(lockUntil: U32, tx: Tx, index: nat)
    requires index < |tx.inputs|
    ensures LockTimeReached(LittleEndian(lockUntil, 4), tx, index)
       <==> if lockUntil < TWO_31 then Reached(tx, index, lockUntil)
            else lockUntil == TWO_31 && Reached(tx, index, 0)
  {
    LockTimeReadBack(lockUntil);
  }

  // ---------- evaluating the redeem script ----------

  lemma ParseTimeLock(publicKey: Bytes, lockUntil: U32)
    requires |publicKey| == 33 || |publicKey| == 65
    ensures Parse(TimeLockBytes(publicKey, lockUntil)) == Some(TimeLockOps(publicKey, lockUntil))
    ensures 41 < |TimeLockBytes(publicKey, lockUntil)| <= 75
  {
    var ops := TimeLockOps(publicKey, lockUntil);
    ParseSerialise(ops);
    var size := |publicKey|;
    assert Serialise(ops[4..]) == [0xac] by { assert ops[4..][1..] == []; }
    assert Serialise(ops[3..]) == SerialiseOp(Push(publicKey)) + [0xac] by { assert ops[3..][1..] == ops[4..]; }
    assert Serialise(ops[2..]) == [0x75] + Serialise(ops[3..]) by { assert ops[2..][1..] == ops[3..]; }
    assert Serialise(ops[1..]) == [0xb1] + Serialise(ops[2..]) by { assert ops[1..][1..] == ops[2..]; }
  }

  lemma AllSerialisable(publicKey: Bytes, lockUntil: U32)
    requires |publicKey| == 33 || |publicKey| == 65
    ensures forall op :: op in TimeLockOps(publicKey, lockUntil) ==> Serialisable(op)
  {
  }

  lemma TimeLockNested(publicKey: Bytes, lockUntil: U32)
    requires |publicKey| == 33 || |publicKey| == 65
    ensures TimeLockBytes(publicKey, lockUntil)
         == ([4] + LittleEndian(lockUntil, 4)) + ([0xb1] + ([0x75] + (([|publicKey|] + publicKey) + ([0xac] + []))))
  {
    hide LittleEndian, Serialise, Serialisable;
    var ops := TimeLockOps(publicKey, lockUntil);
    AllSerialisable(publicKey, lockUntil);
    assert ops[0..] == ops;
    SerialiseNext(ops, 0);
    SerialiseNext(ops, 1);
    SerialiseNext(ops, 2);
    SerialiseNext(ops, 3);
    SerialiseNext(ops, 4);
    SerialiseNext(ops, 5);
  }

  /** The bytes of the redeem script. */
  lemma RedeemScriptBytes(publicKey: Bytes, lockUntil: U32)
    requires |publicKey| == 33 || |publicKey| == 65
    ensures TimeLockBytes(publicKey, lockUntil)
         == [4, lockUntil % 256, lockUntil / 256 % 256, lockUntil / 65536 % 256, lockUntil / 16777216]
            + [0xb1, 0x75, |publicKey|] + publicKey + [0xac]
  {
    hide LittleEndian, TimeLockBytes;
    TimeLockNested(publicKey, lockUntil);
    FourBytes(lockUntil);
    Regroup([4] + LittleEndian(lockUntil, 4), 0xb1, 0x75, |publicKey|, publicKey, 0xac);
    Prepend(4, lockUntil % 256, lockUntil / 256 % 256, lockUntil / 65536 % 256, lockUntil / 16777216);
  }

  lemma Prepend(a: Byte, b0: Byte, b1: Byte, b2: Byte, b3: Byte)
    ensures [a] + [b0, b1, b2, b3] == [a, b0, b1, b2, b3]
  {
  }

  lemma Regroup(head: Bytes, x: Byte, y: Byte, size: Byte, key: Bytes, z: Byte)
    ensures head + ([x] + ([y] + (([size] + key) + ([z] + [])))) == head + [x, y, size] + key + [z]
  {
  }

  /** The bytes of the pay-to-script-hash script. */
  lemma PayToScriptHashBytes(hash: Bytes)
    requires |hash| == 20
    ensures PayToScriptHash(hash) == [0xa9, 20] + hash + [0x87]
  {
    var ops := [Hash160, Push(hash), Equal];
    assert ops[1..][1..] == ops[2..] && ops[2..][1..] == [];
    assert Serialise(ops[2..]) == [0x87];
    assert Serialise(ops[1..]) == [20] + hash + [0x87];
  }

  /** Different keys or lock times give different redeem scripts. */
  lemma TimeLockInjective(k1: Bytes, t1: U32, k2: Bytes, t2: U32)
    requires |k1| == 33 || |k1| == 65
    requires |k2| == 33 || |k2| == 65
    requires TimeLockBytes(k1, t1) == TimeLockBytes(k2, t2)
    ensures k1 == k2 && t1 == t2
  {
    ParseTimeLock(k1, t1);
    ParseTimeLock(k2, t2);
    var a, b := TimeLockOps(k1, t1), TimeLockOps(k2, t2);
    assert a[0] == b[0] && a[3] == b[3];
    assert Power256(4) == TWO_32 by { assert Power256(3) == 256 * Power256(2); }
    LittleEndianRoundTrip(t1, 4, TWO_32);
    LittleEndianRoundTrip(t2, 4, TWO_32);
  }

  /** Running the redeem script: the lock time must be reached and the element below be a good signature. */
  lemma RunTimeLock(c: Crypto, tx: Tx, index: nat, publicKey: Bytes, lockUntil: U32, stack: seq<Bytes>)
    requires index < |tx.inputs| && (|publicKey| == 33 || |publicKey| == 65)
    ensures Accepts(RunScript(c, tx, index, TimeLockBytes(publicKey, lockUntil), stack))
       <==> && LockTimeReached(LittleEndian(lockUntil, 4), tx, index)
            && stack != []
            && SignatureGood(c, tx, index, TimeLockBytes(publicKey, lockUntil), publicKey, stack[0])
  {
    hide SignatureGood, LockTimeReached, Run, Parse, Truthy;
    var code, ops := TimeLockBytes(publicKey, lockUntil), TimeLockOps(publicKey, lockUntil);
    var time := LittleEndian(lockUntil, 4);
    ParseTimeLock(publicKey, lockUntil);
    assert ops[0..] == ops;
    RunNext(c, tx, index, code, ops, 0, stack);
    RunNext(c, tx, index, code, ops, 1, [time] + stack);
    RunNext(c, tx, index, code, ops, 2, [time] + stack);
    assert ([time] + stack)[1..] == stack;
    RunNext(c, tx, index, code, ops, 3, stack);
    var s2 := [publicKey] + stack;
    RunNext(c, tx, index, code, ops, 4, s2);
    if stack != [] {
      var good := SignatureGood(c, tx, index, code, publicKey, stack[0]);
      assert s2[0] == publicKey && s2[1] == stack[0];
      RunNext(c, tx, index, code, ops, 5, [FromBool(good)] + s2[2..]);
      TruthyBool(good);
    }
  }

  lemma ParsePayToScriptHash(hash: Bytes)
    requires |hash| == 20
    ensures Parse(PayToScriptHash(hash)) == Some([Hash160, Push(hash), Equal])
    ensures IsPayToScriptHash(PayToScriptHash(hash))
  {
    var ops := [Hash160, Push(hash), Equal];
    ParseSerialise(ops);
    assert ops[2..][1..] == [] && ops[1..][1..] == ops[2..];
    assert Serialise(ops[2..]) == [0x87];
    assert Serialise(ops[1..]) == [20] + hash + [0x87];
  }

  /** The outer pay-to-script-hash script accepts exactly the stacks whose top has the committed hash. */
  lemma RunPayToScriptHash(c: Crypto, tx: Tx, index: nat, hash: Bytes, stack: seq<Bytes>)
    requires index < |tx.inputs| && |hash| == 20
    ensures Accepts(RunScript(c, tx, index, PayToScriptHash(hash), stack))
       <==> stack != [] && c.hash160(stack[0]) == hash
  {
    hide Run, Parse, Truthy;
    var code, ops := PayToScriptHash(hash), [Hash160, Push(hash), Equal];
    ParsePayToScriptHash(hash);
    assert ops[0..] == ops;
    RunNext(c, tx, index, code, ops, 0, stack);
    if stack != [] {
      var s1 := [c.hash160(stack[0])] + stack[1..];
      RunNext(c, tx, index, code, ops, 1, s1);
      var s2 := [hash] + s1;
      RunNext(c, tx, index, code, ops, 2, s2);
      assert s2[1] == s1[0];
      var equal := hash == s1[0];
      RunNext(c, tx, index, code, ops, 3, [FromBool(equal)] + s2[2..]);
      TruthyBool(equal);
    }
  }

  /** The script sig is pushes that leave the redeem script on top of a signature by the locked key. */
  predicate PresentsSignedRedeemScript(c: Crypto, tx: Tx, index: nat, publicKey: Bytes, redeem: Bytes)
    requires index < |tx.inputs|
  {
    var stack := RunScript(c, tx, index, tx.inputs[index].script, []);
    && stack.Some? && PushOnly(Parse(tx.inputs[index].script).value)
    && |stack.value| >= 2 && stack.value[0] == redeem
    && SignatureGood(c, tx, index, redeem, publicKey, stack.value[1])
  }

  /** The script sig leaves another text with the redeem script's HASH160 on top. */
  predicate PresentsSecondPreimage(c: Crypto, tx: Tx, index: nat, redeem: Bytes)
    requires index < |tx.inputs|
  {
    var stack := RunScript(c, tx, index, tx.inputs[index].script, []);
    && stack.Some? && stack.value != []
    && stack.value[0] != redeem && c.hash160(stack.value[0]) == c.hash160(redeem)
  }

  /**
    * Who can spend a locked output, whatever the hash function: any script sig and any spending transaction. It must be
    * pushes that end with the redeem script over a signature by the locked key, and CHECKLOCKTIMEVERIFY must let the
    * transaction through; or else it presents another text with the same HASH160.
    */
  lemma SpendsLockOrCollides(c: Crypto, tx: Tx, index: nat, publicKey: Bytes, lockUntil: U32)
    requires index < |tx.inputs| && Lawful(c) && (|publicKey| == 33 || |publicKey| == 65)
    requires !PresentsSecondPreimage(c, tx, index, TimeLockBytes(publicKey, lockUntil))
    ensures Spends(c, tx, index, LockScript(c, publicKey, lockUntil))
       <==> && PresentsSignedRedeemScript(c, tx, index, publicKey, TimeLockBytes(publicKey, lockUntil))
            && LockTimeReached(LittleEndian(lockUntil, 4), tx, index)
  {
    hide LockTimeReached, SignatureGood, Run, Parse;
    var redeem := TimeLockBytes(publicKey, lockUntil);
    var hash := c.hash160(redeem);
    var stack := RunScript(c, tx, index, tx.inputs[index].script, []);
    ParsePayToScriptHash(hash);
    if stack.Some? {
      RunPayToScriptHash(c, tx, index, hash, stack.value);
      if stack.value != [] && stack.value[0] == redeem {
        RunTimeLock(c, tx, index, publicKey, lockUntil, stack.value[1..]);
      }
    }
  }

  /** Exactly who can spend a locked output, if nobody knows another text with the redeem script's HASH160. */
  lemma SpendsLockExactly(c: Crypto, tx: Tx, index: nat, publicKey: Bytes, lockUntil: U32)
    requires index < |tx.inputs| && Lawful(c) && (|publicKey| == 33 || |publicKey| == 65)
    requires NoSecondPreimage(c, TimeLockBytes(publicKey, lockUntil))
    ensures Spends(c, tx, index, LockScript(c, publicKey, lockUntil))
       <==> && PresentsSignedRedeemScript(c, tx, index, publicKey, TimeLockBytes(publicKey, lockUntil))
            && LockTimeReached(LittleEndian(lockUntil, 4), tx, index)
  {
    hide LockTimeReached, SignatureGood, RunScript, Spends;
    SpendsLockOrCollides(c, tx, index, publicKey, lockUntil);
  }

  /** No early spend: below 2^31, whatever script sig is tried, the lock time holds and the key has signed. */
  lemma NoEarlySpend(c: Crypto, tx: Tx, index: nat, publicKey: Bytes, lockUntil: U32)
    requires index < |tx.inputs| && Lawful(c) && (|publicKey| == 33 || |publicKey| == 65)
    requires NoSecondPreimage(c, TimeLockBytes(publicKey, lockUntil))
    requires lockUntil < TWO_31
    requires Spends(c, tx, index, LockScript(c, publicKey, lockUntil))
    ensures tx.locktime >= lockUntil
    ensures lockUntil < 500_000_000 <==> tx.locktime < 500_000_000
    ensures tx.inputs[index].sequence != 0xffff_ffff
    ensures exists endorsement ::
              SignatureGood(c, tx, index, TimeLockBytes(publicKey, lockUntil), publicKey, endorsement)
  {
    SpendsLockExactly(c, tx, index, publicKey, lockUntil);
    LockTimeMeaning(lockUntil, tx, index);
  }

  /** From 2^31 on the lock fails: above it nobody can ever spend, and at it the height-class locktime 0 is enough. */
  lemma LockFailsFrom2To31(c: Crypto, tx: Tx, index: nat, publicKey: Bytes, lockUntil: U32)
    requires index < |tx.inputs| && Lawful(c) && (|publicKey| == 33 || |publicKey| == 65)
    requires NoSecondPreimage(c, TimeLockBytes(publicKey, lockUntil))
    requires lockUntil >= TWO_31
    requires Spends(c, tx, index, LockScript(c, publicKey, lockUntil))
    ensures lockUntil == 0x8000_0000 && tx.locktime < 500_000_000
  {
    SpendsLockExactly(c, tx, index, publicKey, lockUntil);
    LockTimeMeaning(lockUntil, tx, index);
  }
}

/**
  * Script serialisation, and the part of the script machine that the library's scripts need:
  * pushes, OP_DROP, OP_DUP, OP_EQUAL(VERIFY), OP_HASH160, OP_CHECKSIG, OP_CHECKLOCKTIMEVERIFY
  * (BIP 65) and pay-to-script-hash evaluation (BIP 16). Any other opcode fails.
  */
module Script {
  import opened Wrappers
  import opened MachineIntegers
  import opened Transactions

  const MAX_ELEMENT_SIZE := 520
  const LOCKTIME_THRESHOLD := 500_000_000

  datatype Op =
    | Push(data: Bytes)
    | Drop
    | Dup
    | Equal
    | EqualVerify
    | Hash160
    | CheckSig
    | CheckLockTimeVerify
    | Unsupported(code: Byte)

  // ---------- numbers ----------

  /** The first k bytes of n, least significant first. */
  function LittleEndian(n: nat, k: nat): (r: Bytes)
    ensures |r| == k
  {
    if k == 0 then [] else [n % 256] + LittleEndian(n / 256, k - 1)
  }

  function FromLittleEndian(b: Bytes): nat {
    if b == [] then 0 else b[0] + 256 * FromLittleEndian(b[1..])
  }

  /** A stack element read as a script number: little endian, the top bit of the last byte is the sign. */
  function ScriptNumber(b: Bytes): int {
    if b == [] then 0
    else if b[|b| - 1] < 128 then FromLittleEndian(b)
    else 0 - FromLittleEndian(b[|b| - 1 := b[|b| - 1] - 128])
  }

  /** True unless all bytes are zero, a sign bit aside. */
  predicate Truthy(b: Bytes) {
    exists i :: 0 <= i < |b| && b[i] != 0 && !(i == |b| - 1 && b[i] == 128)
  }

  // ---------- serialisation ----------

  function PushPrefix(size: nat): Bytes
    requires size < TWO_32
  {
    if size <= 75 then [size]
    else if size <= 0xff then [0x4c] + LittleEndian(size, 1)
    else if size <= 0xffff then [0x4d] + LittleEndian(size, 2)
    else [0x4e] + LittleEndian(size, 4)
  }

  predicate Named(code: Byte) {
    code <= 0x4f || 0x51 <= code <= 0x60 || code in [0x75, 0x76, 0x87, 0x88, 0xa9, 0xac, 0xb1]
  }

  predicate Serialisable(op: Op) {
    match op
    case Push(data) => |data| < TWO_32
    case Unsupported(code) => !Named(code)
    case _ => true
  }

  function SerialiseOp(op: Op): Bytes
    requires Serialisable(op)
  {
    match op
    case Push(data) => PushPrefix(|data|) + data
    case Drop => [0x75]
    case Dup => [0x76]
    case Equal => [0x87]
    case EqualVerify => [0x88]
    case Hash160 => [0xa9]
    case CheckSig => [0xac]
    case CheckLockTimeVerify => [0xb1]
    case Unsupported(code) => [code]
  }

  function Serialise(ops: seq<Op>): Bytes
    requires forall op :: op in ops ==> Serialisable(op)
  {
    if ops == [] then [] else SerialiseOp(ops[0]) + Serialise(ops[1..])
  }

  /** A push whose data starts at `start` and is `size` bytes long, with the total length. */
  function ParsePush(b: Bytes, start: nat, size: nat): Option<(Op, nat)> {
    if start + size <= |b| then Some((Push(b[start..start + size]), start + size)) else None
  }

  /** A push whose size field is the `width` bytes after the opcode. */
  function ParseSizedPush(b: Bytes, width: nat): Option<(Op, nat)> {
    if 1 + width <= |b| then ParsePush(b, 1 + width, FromLittleEndian(b[1..1 + width])) else None
  }

  /** The first operation of a script and the number of bytes it takes. */
  function ParseOp(b: Bytes): (r: Option<(Op, nat)>)
    requires b != []
    ensures r.Some? ==> 0 < r.value.1 <= |b|
  {
    var code := b[0];
    if code <= 75 then ParsePush(b, 1, code)
    else if code == 0x4c then ParseSizedPush(b, 1)
    else if code == 0x4d then ParseSizedPush(b, 2)
    else if code == 0x4e then ParseSizedPush(b, 4)
    else if code == 0x4f then Some((Push([0x81]), 1))
    else if 0x51 <= code <= 0x60 then Some((Push([code - 0x50]), 1))
    else if code == 0x75 then Some((Drop, 1))
    else if code == 0x76 then Some((Dup, 1))
    else if code == 0x87 then Some((Equal, 1))
    else if code == 0x88 then Some((EqualVerify, 1))
    else if code == 0xa9 then Some((Hash160, 1))
    else if code == 0xac then Some((CheckSig, 1))
    else if code == 0xb1 then Some((CheckLockTimeVerify, 1))
    else Some((Unsupported(code), 1))
  }

  function Parse(b: Bytes): Option<seq<Op>>
    decreases |b|
  {
    if b == [] then Some([])
    else match ParseOp(b)
      case None => None
      case Some((op, n)) =>
        match Parse(b[n..])
        case None => None
        case Some(ops) => Some([op] + ops)
  }

  lemma {:induction false} LittleEndianRoundTrip(n: nat, k: nat, bound: nat)
    requires n < bound && bound == Power256(k)
    ensures FromLittleEndian(LittleEndian(n, k)) == n
    decreases k
  {
    if k != 0 {
      LittleEndianRoundTrip(n / 256, k - 1, Power256(k - 1));
      assert LittleEndian(n, k)[1..] == LittleEndian(n / 256, k - 1);
    }
  }

  function Power256(k: nat): nat {
    if k == 0 then 1 else 256 * Power256(k - 1)
  }

  lemma ParsePushOf(head: Bytes, data: Bytes, rest: Bytes)
    ensures ParsePush(head + data + rest, |head|, |data|) == Some((Push(data), |head + data|))
  {
  }

  lemma ParseSizedPushOf(code: Byte, width: nat, data: Bytes, rest: Bytes)
    requires |data| < Power256(width)
    ensures ParseSizedPush([code] + LittleEndian(|data|, width) + data + rest, width)
         == Some((Push(data), 1 + width + |data|))
  {
    hide Power256, LittleEndian, FromLittleEndian;
    var head := [code] + LittleEndian(|data|, width);
    var b := head + data + rest;
    assert b[1..1 + width] == LittleEndian(|data|, width);
    LittleEndianRoundTrip(|data|, width, Power256(width));
    ParsePushOf(head, data, rest);
  }

  /** Reading back one serialised operation, whatever follows it. */
  lemma ParseSerialisedOp(op: Op, rest: Bytes)
    requires Serialisable(op)
    ensures SerialiseOp(op) != []
    ensures ParseOp(SerialiseOp(op) + rest) == Some((op, |SerialiseOp(op)|))
  {
    match op
    case Push(data) =>
      var n := |data|;
      assert Power256(1) == 0x100;
      assert Power256(2) == 0x1_0000 by { assert Power256(2) == 256 * Power256(1); }
      assert Power256(4) == TWO_32 by {
        assert Power256(4) == 256 * Power256(3);
        assert Power256(3) == 256 * Power256(2);
      }
      if n <= 75 {
        ParsePushOf([n], data, rest);
      } else if n <= 0xff {
        ParseSizedPushOf(0x4c, 1, data, rest);
      } else if n <= 0xffff {
        ParseSizedPushOf(0x4d, 2, data, rest);
      } else {
        ParseSizedPushOf(0x4e, 4, data, rest);
      }
    case _ =>
  }

  /** Parsing undoes serialising. */
  lemma {:induction false} ParseSerialise(ops: seq<Op>)
    requires forall op :: op in ops ==> Serialisable(op)
    ensures Parse(Serialise(ops)) == Some(ops)
  {
    if ops != [] {
      var rest := Serialise(ops[1..]);
      ParseSerialisedOp(ops[0], rest);
      assert (SerialiseOp(ops[0]) + rest)[|SerialiseOp(ops[0])|..] == rest;
      ParseSerialise(ops[1..]);
      assert [ops[0]] + ops[1..] == ops;
    }
  }

  // ---------- evaluation ----------

  /** OP_CHECKLOCKTIMEVERIFY against input `index` of `tx` (BIP 65). */
  predicate LockTimeReached(element: Bytes, tx: Tx, index: nat)
    requires index < |tx.inputs|
  {
    var n := ScriptNumber(element);
    && |element| <= 5
    && n >= 0
    && (n < LOCKTIME_THRESHOLD <==> tx.locktime < LOCKTIME_THRESHOLD)
    && n <= tx.locktime
    && tx.inputs[index].sequence != FINAL_SEQUENCE
  }

  /** OP_CHECKSIG: the last byte of a signature element is its hash type. */
  predicate SignatureGood(c: Crypto, tx: Tx, index: nat, code: Bytes, publicKey: Bytes, endorsement: Bytes) {
    && endorsement != []
    && var der, hashType := endorsement[..|endorsement| - 1], endorsement[|endorsement| - 1];
       c.verify(publicKey, der, MessageFor(c, tx, index, code, hashType))
  }

  function FromBool(b: bool): Bytes {
    if b then [1] else []
  }

  /** One operation on a stack whose top is its first element; None is failure. */
  function Step(c: Crypto, tx: Tx, index: nat, code: Bytes, op: Op, stack: seq<Bytes>): Option<seq<Bytes>>
    requires index < |tx.inputs|
  {
    match op
    case Push(data) => if |data| <= MAX_ELEMENT_SIZE then Some([data] + stack) else None
    case Drop => if |stack| >= 1 then Some(stack[1..]) else None
    case Dup => if |stack| >= 1 then Some([stack[0]] + stack) else None
    case Equal => if |stack| >= 2 then Some([FromBool(stack[0] == stack[1])] + stack[2..]) else None
    case EqualVerify => if |stack| >= 2 && stack[0] == stack[1] then Some(stack[2..]) else None
    case Hash160 => if |stack| >= 1 then Some([c.hash160(stack[0])] + stack[1..]) else None
    case CheckSig =>
      if |stack| >= 2 then
        Some([FromBool(SignatureGood(c, tx, index, code, stack[0], stack[1]))] + stack[2..])
      else None
    case CheckLockTimeVerify => if |stack| >= 1 && LockTimeReached(stack[0], tx, index) then Some(stack) else None
    case Unsupported(_) => None
  }

  function Run(c: Crypto, tx: Tx, index: nat, code: Bytes, ops: seq<Op>, stack: seq<Bytes>): Option<seq<Bytes>>
    requires index < |tx.inputs|
  {
    if ops == [] then Some(stack)
    else match Step(c, tx, index, code, ops[0], stack)
      case None => None
      case Some(next) => Run(c, tx, index, code, ops[1..], next)
  }

  function RunScript(c: Crypto, tx: Tx, index: nat, script: Bytes, stack: seq<Bytes>): Option<seq<Bytes>>
    requires index < |tx.inputs|
  {
    match Parse(script)
    case None => None
    case Some(ops) => Run(c, tx, index, script, ops, stack)
  }

  predicate Accepts(result: Option<seq<Bytes>>) {
    result.Some? && result.value != [] && Truthy(result.value[0])
  }

  /** The BIP 16 template: HASH160, a direct push of 20 bytes, EQUAL. */
  predicate IsPayToScriptHash(script: Bytes) {
    |script| == 23 && script[0] == 0xa9 && script[1] == 20 && script[22] == 0x87
  }

  predicate PushOnly(ops: seq<Op>) {
    forall op :: op in ops ==> op.Push?
  }

  /** Input `index` of `tx` satisfies the output script `locking`. */
  predicate Spends(c: Crypto, tx: Tx, index: nat, locking: Bytes)
    requires index < |tx.inputs|
  {
    var unlocking := tx.inputs[index].script;
    var stack := RunScript(c, tx, index, unlocking, []);
    && stack.Some?
    && Accepts(RunScript(c, tx, index, locking, stack.value))
    && (IsPayToScriptHash(locking) ==>
          && PushOnly(Parse(unlocking).value)
          && stack.value != []
          && Accepts(RunScript(c, tx, index, stack.value[0], stack.value[1..])))
  }

  /** Serialising from operation k on is serialising it and then the rest. */
  lemma SerialiseNext(ops: seq<Op>, k: nat)
    requires k <= |ops| && forall op :: op in ops ==> Serialisable(op)
    ensures k < |ops| ==> Serialise(ops[k..]) == SerialiseOp(ops[k]) + Serialise(ops[k + 1..])
    ensures k == |ops| ==> Serialise(ops[k..]) == []
  {
    if k < |ops| {
      assert ops[k..][0] == ops[k] && ops[k..][1..] == ops[k + 1..];
    }
  }

  /** Running from operation k is running it and then the rest. */
  lemma RunNext(c: Crypto, tx: Tx, index: nat, code: Bytes, ops: seq<Op>, k: nat, stack: seq<Bytes>)
    requires index < |tx.inputs| && k <= |ops|
    ensures k < |ops| ==>
              Run(c, tx, index, code, ops[k..], stack) ==
              match Step(c, tx, index, code, ops[k], stack)
              case None => None
              case Some(next) => Run(c, tx, index, code, ops[k + 1..], next)
    ensures k == |ops| ==> Run(c, tx, index, code, ops[k..], stack) == Some(stack)
  {
    hide Step;
    if k < |ops| {
      assert ops[k..][0] == ops[k] && ops[k..][1..] == ops[k + 1..];
    }
  }

  /** Running pushes of allowed size stacks them up, last on top. */
  lemma RunTwoPushes(c: Crypto, tx: Tx, index: nat, a: Bytes, b: Bytes)
    requires index < |tx.inputs| && |a| <= MAX_ELEMENT_SIZE && |b| <= MAX_ELEMENT_SIZE
    ensures Parse(Serialise([Push(a), Push(b)])) == Some([Push(a), Push(b)])
    ensures RunScript(c, tx, index, Serialise([Push(a), Push(b)]), []) == Some([b, a])
  {
    var ops := [Push(a), Push(b)];
    var code := Serialise(ops);
    ParseSerialise(ops);
    assert [a] + [] == [a];
    assert Step(c, tx, index, code, ops[0], []) == Some([a]);
    assert ops[1..] == [Push(b)];
    assert [b] + [a] == [b, a];
    assert Step(c, tx, index, code, ops[1], [a]) == Some([b, a]);
    assert ops[1..][1..] == [];
    assert Run(c, tx, index, code, ops[1..], [a]) == Some([b, a]);
  }

  lemma TruthyBool(b: bool)
    ensures Truthy(FromBool(b)) <==> b
  {
    if b {
      assert FromBool(b)[0] == 1;
    }
  }
}

/** Bytes, transactions, and the cryptography they rest on, as abstract functions with stated laws. */
module Transactions {
  import opened MachineIntegers
  import opened Sequences

  type Byte = b: int | 0 <= b < 256
  type Bytes = seq<Byte>
  type Secret = Bytes

  const FINAL_SEQUENCE: U32 := 0xffff_ffff
  const SIGHASH_ALL: Byte := 1

  datatype OutPoint = OutPoint(hash: Bytes, index: U32)
  datatype Input = Input(previous: OutPoint, script: Bytes, sequence: U32)
  datatype Output = Output(value: U64, script: Bytes)
  datatype Tx = Tx(version: U32, inputs: seq<Input>, outputs: seq<Output>, locktime: U32)

  /** What a signature signs: a stripped copy of the transaction and the signature hash type. */
  datatype SignedMessage = SignedMessage(copy: Tx, hashType: Byte)

  /**
    * HASH160, transaction ids and secp256k1, kept abstract. `otherCopy` is the stripped copy
    * that hash types other than SIGHASH_ALL sign.
    */
  datatype Crypto = Crypto(
    hash160: Bytes -> Bytes,
    txid: Tx -> Bytes,
    publicKey: Secret -> Bytes,
    sign: (Secret, SignedMessage) -> Bytes,
    verify: (Bytes, Bytes, SignedMessage) -> bool,
    otherCopy: (Tx, nat, Bytes, Byte) -> Tx)

  /** The laws used: honest signatures verify, and sizes are those of the encodings. */
  ghost predicate Lawful(c: Crypto) {
    && (forall k: Secret, m: SignedMessage :: c.verify(c.publicKey(k), c.sign(k, m), m))
    && (forall k: Secret, m: SignedMessage :: 8 <= |c.sign(k, m)| <= 72)
    && (forall k: Secret :: |c.publicKey(k)| == 33 || |c.publicKey(k)| == 65)
    && (forall b: Bytes :: |c.hash160(b)| == 20)
  }

  /** Nobody knows another text with the same HASH160 as this one. */
  ghost predicate NoSecondPreimage(c: Crypto, text: Bytes) {
    forall other: Bytes :: c.hash160(other) == c.hash160(text) ==> other == text
  }

  /** The assumptions can be met, for any text. */
  lemma LawsCanHold(text: Bytes) returns (c: Crypto)
    ensures Lawful(c) && NoSecondPreimage(c, text)
  {
    var signature: Bytes := seq(8, _ => 0);
    c := Crypto(
      b => if b == text then seq(20, _ => 1) else seq(20, _ => 0),
      _ => [],
      _ => seq(33, _ => 2),
      (_, _) => signature,
      (_, s, _) => s == signature,
      (tx, _, _, _) => tx);
    assert forall other: Bytes :: other != text ==> c.hash160(other)[0] != c.hash160(text)[0];
  }

  /** The copy SIGHASH_ALL signs: every input script blank, except the signed input's, which is `code`. */
  function BlankedFor(tx: Tx, index: nat, code: Bytes): Tx {
    tx.(inputs := seq(|tx.inputs|, k requires 0 <= k < |tx.inputs| =>
      tx.inputs[k].(script := if k == index then code else [])))
  }

  function MessageFor(c: Crypto, tx: Tx, index: nat, code: Bytes, hashType: Byte): SignedMessage {
    SignedMessage(
      if hashType == SIGHASH_ALL then BlankedFor(tx, index, code) else c.otherCopy(tx, index, code, hashType),
      hashType)
  }

  /** Two transactions that differ only in input scripts. */
  predicate SameButScripts(a: Tx, b: Tx) {
    && a.version == b.version && a.outputs == b.outputs && a.locktime == b.locktime
    && |a.inputs| == |b.inputs|
    && forall k :: 0 <= k < |a.inputs| ==>
         a.inputs[k].previous == b.inputs[k].previous && a.inputs[k].sequence == b.inputs[k].sequence
  }

  /** Why the signing loop works: the SIGHASH_ALL copy does not depend on the scripts already written. */
  lemma BlankingForgetsScripts(a: Tx, b: Tx, index: nat, code: Bytes)
    ensures SameButScripts(a, b) ==> BlankedFor(a, index, code) == BlankedFor(b, index, code)
    ensures BlankedFor(a, index, code) == BlankedFor(b, index, code) ==> SameButScripts(a, b)
  {
    if SameButScripts(a, b) {
      assert BlankedFor(a, index, code).inputs == BlankedFor(b, index, code).inputs;
    }
    if BlankedFor(a, index, code) == BlankedFor(b, index, code) {
      assert |a.inputs| == |BlankedFor(a, index, code).inputs| == |b.inputs|;
      forall k | 0 <= k < |a.inputs|
        ensures a.inputs[k].previous == b.inputs[k].previous && a.inputs[k].sequence == b.inputs[k].sequence
      {
        assert BlankedFor(a, index, code).inputs[k] == BlankedFor(b, index, code).inputs[k];
      }
    }
  }

  function OutputTotal(outputs: seq<Output>): nat {
    if outputs == [] then 0 else outputs[0].value + OutputTotal(outputs[1..])
  }

  function OutputValues(outputs: seq<Output>): (r: seq<nat>)
    ensures |r| == |outputs| && forall k :: 0 <= k < |r| ==> r[k] == outputs[k].value
  {
    seq(|outputs|, k requires 0 <= k < |outputs| => outputs[k].value)
  }

  lemma {:induction false} OutputTotalIsSum(outputs: seq<Output>)
    ensures OutputTotal(outputs) == Sum(OutputValues(outputs))
  {
    if outputs != [] {
      OutputTotalIsSum(outputs[1..]);
      assert OutputValues(outputs)[1..] == OutputValues(outputs[1..]);
    }
  }

  /** The copy also fixes which input is signed, and for which script. */
  lemma BlankingCommits(a: Tx, i: nat, code: Bytes, b: Tx, j: nat, other: Bytes)
    requires i < |a.inputs| && j < |b.inputs| && code != [] && other != []
    requires BlankedFor(a, i, code) == BlankedFor(b, j, other)
    ensures i == j && code == other && SameButScripts(a, b)
  {
    var ca, cb := BlankedFor(a, i, code), BlankedFor(b, j, other);
    assert ca.inputs[i].script == code && cb.inputs[i].script == if i == j then other else [];
    BlankingForgetsScripts(a, b, i, code);
  }
}

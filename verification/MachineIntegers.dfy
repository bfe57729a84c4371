/** The C++ fixed-width integers: wrap-around is written out with Wrap and AsSigned. */
module MachineIntegers {
  const TWO_31 := 0x8000_0000
  const TWO_32 := 0x1_0000_0000
  const TWO_63 := 0x8000_0000_0000_0000
  const TWO_64 := 0x1_0000_0000_0000_0000

  type U32 = x: int | 0 <= x < TWO_32
  type U64 = x: int | 0 <= x < TWO_64
  type I64 = x: int | -TWO_63 <= x < TWO_63

  /** The uint64_t that an exact integer becomes. */
  function Wrap(x: int): U64 {
    x % TWO_64
  }

  /** static_cast<int64_t> of a uint64_t: two's complement. */
  function AsSigned(x: U64): I64 {
    if x < TWO_63 then x else x - TWO_64
  }

  /** The int64_t sum as two's complement hardware computes it. */
  function AddSigned(x: I64, y: I64): I64 {
    AsSigned(Wrap(x + y))
  }

  lemma WrapShift(x: int, k: int)
    ensures Wrap(x + k * TWO_64) == Wrap(x)
  {
    assert x + k * TWO_64 == x + TWO_64 * k;
    assert x == TWO_64 * (x / TWO_64) + x % TWO_64;
    var q, r := x / TWO_64 + k, x % TWO_64;
    assert x + k * TWO_64 == TWO_64 * q + r;
    QuotientUnique(x + k * TWO_64, q, r);
  }

  lemma QuotientUnique(x: int, q: int, r: int)
    requires 0 <= r < TWO_64 && x == TWO_64 * q + r
    ensures x % TWO_64 == r
  {
  }

  lemma WrapExact(x: int)
    requires 0 <= x < TWO_64
    ensures Wrap(x) == x
  {
  }

  /** An exact integer differs from its wrapped form by a multiple of 2^64. */
  lemma WrapMultiple(x: int) returns (k: int)
    ensures x == Wrap(x) + k * TWO_64
  {
    k := x / TWO_64;
  }

  /** Wrapping one operand first changes nothing. */
  lemma WrapAdd(x: int, y: int)
    ensures Wrap(Wrap(x) + y) == Wrap(x + y)
    ensures Wrap(x + Wrap(y)) == Wrap(x + y)
  {
    var k := WrapMultiple(x);
    WrapShift(Wrap(x) + y, k);
    var j := WrapMultiple(y);
    WrapShift(x + Wrap(y), j);
  }

  lemma WrapSub(x: int, y: int)
    ensures Wrap(Wrap(x) - y) == Wrap(x - y)
    ensures Wrap(x - Wrap(y)) == Wrap(x - y)
  {
    WrapAdd(x, -y);
    var j := WrapMultiple(y);
    WrapShift(x - Wrap(y), -j);
  }

  /** Casting a wrapped value to signed and adding it back is the same modulo 2^64. */
  lemma WrapSigned(x: int, y: int)
    ensures Wrap(x + AsSigned(Wrap(y))) == Wrap(x + y)
  {
    WrapAdd(x, y);
    WrapShift(x + Wrap(y), -1);
  }

  lemma SignedExact(x: int)
    requires -TWO_63 <= x < TWO_63
    ensures AsSigned(Wrap(x)) == x
  {
    if x < 0 {
      WrapShift(x, 1);
    }
  }

  /** A small exact value, positive or negative, wraps to a non-negative one only if it is that one. */
  lemma WrapIs(sum: int, value: nat)
    requires -TWO_63 < sum < TWO_63 && value < TWO_63
    ensures Wrap(sum) == value <==> sum == value
  {
    if sum >= 0 {
      WrapExact(sum);
    } else {
      WrapShift(sum, 1);
      WrapExact(sum + TWO_64);
    }
  }
}

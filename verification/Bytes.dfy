/** Bytes, bitwise exclusive or, and the fixed-width integer conversions of Go. */
module Bytes {

  newtype byte = x: int | 0 <= x < 256

  /** Exclusive or of the low n bits of a and b. */
  function XorBits(a: nat, b: nat, n: nat): nat {
    if n == 0 then 0 else 2 * XorBits(a / 2, b / 2, n - 1) + (a % 2 + b % 2) % 2
  }

  function Pow2(n: nat): nat {
    if n == 0 then 1 else 2 * Pow2(n - 1)
  }

  lemma {:induction false} XorBitsBound(a: nat, b: nat, n: nat)
    ensures XorBits(a, b, n) < Pow2(n)
  {
    if n > 0 {
      XorBitsBound(a / 2, b / 2, n - 1);
    }
  }

  lemma {:induction false} XorBitsInvolution(a: nat, b: nat, n: nat)
    requires a < Pow2(n)
    ensures XorBits(XorBits(a, b, n), b, n) == a
  {
    if n > 0 {
      var high, low := XorBits(a / 2, b / 2, n - 1), (a % 2 + b % 2) % 2;
      assert (2 * high + low) / 2 == high && (2 * high + low) % 2 == low;
      assert (low + b % 2) % 2 == a % 2;
      XorBitsInvolution(a / 2, b / 2, n - 1);
    }
  }

  function Xor(a: byte, b: byte): byte {
    XorBitsBound(a as nat, b as nat, 8);
    assert Pow2(8) == 256;
    XorBits(a as nat, b as nat, 8) as byte
  }

  lemma XorInvolution(a: byte, b: byte)
    ensures Xor(Xor(a, b), b) == a
  {
    assert Pow2(8) == 256;
    XorBitsInvolution(a as nat, b as nat, 8);
  }

  /** Bit i of a number, the lowest being bit 0. */
  function Bit(x: nat, i: nat): nat {
    if i == 0 then x % 2 else Bit(x / 2, i - 1)
  }

  lemma {:induction false} XorBitsAt(a: nat, b: nat, n: nat, i: nat)
    requires i < n
    ensures Bit(XorBits(a, b, n), i) == (Bit(a, i) + Bit(b, i)) % 2
  {
    var high, low := XorBits(a / 2, b / 2, n - 1), (a % 2 + b % 2) % 2;
    assert (2 * high + low) / 2 == high && (2 * high + low) % 2 == low;
    if i > 0 {
      XorBitsAt(a / 2, b / 2, n - 1, i - 1);
    }
  }

  /** Each of the eight bits is set exactly if one of the two, and not both, is. */
  lemma XorIsBitwise(a: byte, b: byte, i: nat)
    requires i < 8
    ensures Bit(Xor(a, b) as nat, i) == (Bit(a as nat, i) + Bit(b as nat, i)) % 2
  {
    XorBitsAt(a as nat, b as nat, 8, i);
  }

  // ----- two's-complement conversions -----

  const TWO31: int := 0x8000_0000
  const TWO32: int := 0x1_0000_0000
  const TWO63: int := 0x8000_0000_0000_0000
  const TWO64: int := 0x1_0000_0000_0000_0000

  predicate FitsInt64(x: int) { -TWO63 <= x < TWO63 }

  /** int16(x) */
  function ToInt16(x: int): int { (x + 0x8000) % 0x1_0000 - 0x8000 }

  /** int32(x) */
  function ToInt32(x: int): int { (x + TWO31) % TWO32 - TWO31 }

  /** uint32(x) */
  function ToUint32(x: int): int { x % TWO32 }

  /** The value an int64 sum or product takes after overflow. */
  function WrapInt64(x: int): int { (x + TWO63) % TWO64 - TWO63 }

  /** Each keeps the value modulo its width and brings it into range. */
  lemma Int16IsModular(x: int)
    ensures -0x8000 <= ToInt16(x) < 0x8000 && (ToInt16(x) - x) % 0x1_0000 == 0
  {
  }

  lemma Int32IsModular(x: int)
    ensures -0x8000_0000 <= ToInt32(x) < 0x8000_0000 && (ToInt32(x) - x) % 0x1_0000_0000 == 0
  {
  }

  lemma Uint32IsModular(x: int)
    ensures 0 <= ToUint32(x) < 0x1_0000_0000 && (ToUint32(x) - x) % 0x1_0000_0000 == 0
  {
  }

  lemma Int64IsModular(x: int)
    ensures -0x8000_0000_0000_0000 <= WrapInt64(x) < 0x8000_0000_0000_0000
    ensures (WrapInt64(x) - x) % 0x1_0000_0000_0000_0000 == 0
  {
  }
}

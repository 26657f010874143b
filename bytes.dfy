/**
 * Bytes: the 8-bit cell that every register, memory location and timer holds,
 * and the bitwise operations the instruction set applies to it.
 *
 * The bitwise operations are defined one bit at a time on unbounded naturals
 * (low bit first), so that their properties can be proved by induction on the
 * number of bits instead of by bit-vector reasoning.
 */
module Bytes {
  type byte = x: int | 0 <= x < 256

  function Pow2(k: nat): (p: nat)
    ensures p >= 1
  {
    if k == 0 then 1 else 2 * Pow2(k - 1)
  }

  datatype BitOp = OrOp | AndOp | XorOp

  function Combine(op: BitOp, p: bool, q: bool): bool {
    match op
    case OrOp => p || q
    case AndOp => p && q
    case XorOp => p != q
  }

  /** The low `w` bits of `a op b`. */
  function Bitwise(op: BitOp, a: nat, b: nat, w: nat): (r: nat)
    ensures r < Pow2(w)
    decreases w
  {
    if w == 0 then 0
    else (if Combine(op, a % 2 == 1, b % 2 == 1) then 1 else 0) + 2 * Bitwise(op, a / 2, b / 2, w - 1)
  }

  /** The number of bits of `n` in binary, Python's `n.bit_length()`. */
  function BitLength(n: nat): (w: nat)
    ensures n < Pow2(w)
    decreases n
  {
    if n == 0 then 0 else 1 + BitLength(n / 2)
  }

  /** A number below 2^k needs at most k bits. */
  lemma {:induction false} BitLengthAtMost(n: nat, k: nat)
    requires n < Pow2(k)
    ensures BitLength(n) <= k
    decreases k
  {
    if n > 0 {
      BitLengthAtMost(n / 2, k - 1);
    }
  }

  /**
   * Once both operands fit in `w` bits, a wider `Bitwise` adds no bits:
   * the result is the unbounded `a op b` of Python.
   */
  lemma {:induction false} BitwiseWidthStable(op: BitOp, a: nat, b: nat, w: nat, w': nat)
    requires a < Pow2(w) && b < Pow2(w) && w <= w'
    ensures Bitwise(op, a, b, w') == Bitwise(op, a, b, w)
    decreases w'
  {
    if w' > 0 {
      if w == 0 {
        BitwiseWidthStable(op, 0, 0, 0, w' - 1);
      } else {
        BitwiseWidthStable(op, a / 2, b / 2, w - 1, w' - 1);
      }
    }
  }

  /** Or with zero changes nothing. */
  lemma {:induction false} OrZero(a: nat, w: nat)
    requires a < Pow2(w)
    ensures Bitwise(OrOp, a, 0, w) == a
    decreases w
  {
    if w > 0 {
      OrZero(a / 2, w - 1);
    }
  }

  lemma Pow2Byte()
    ensures Pow2(8) == 256
  {
  }

  /** Python's `a | b` on two bytes. */
  function BitOr(a: byte, b: byte): (r: byte)
    ensures a <= r && b <= r
  {
    Pow2Byte();
    OrAtLeast(a, b, 8);
    OrAtLeast(b, a, 8);
    OrCommutes(a, b, 8);
    Bitwise(OrOp, a, b, 8)
  }

  /** Python's `a & b` on two bytes. */
  function BitAnd(a: byte, b: byte): (r: byte)
    ensures r <= a && r <= b
  {
    Pow2Byte();
    AndAtMost(a, b, 8);
    AndAtMost(b, a, 8);
    AndCommutes(a, b, 8);
    Bitwise(AndOp, a, b, 8)
  }

  /** Python's `a ^ b` on two bytes. */
  function BitXor(a: byte, b: byte): (r: byte)
  {
    Pow2Byte();
    Bitwise(XorOp, a, b, 8)
  }

  lemma {:induction false} OrAtLeast(a: nat, b: nat, w: nat)
    requires a < Pow2(w)
    ensures a <= Bitwise(OrOp, a, b, w)
    decreases w
  {
    if w > 0 {
      OrAtLeast(a / 2, b / 2, w - 1);
    }
  }

  lemma {:induction false} OrCommutes(a: nat, b: nat, w: nat)
    ensures Bitwise(OrOp, a, b, w) == Bitwise(OrOp, b, a, w)
    decreases w
  {
    if w > 0 {
      OrCommutes(a / 2, b / 2, w - 1);
    }
  }

  lemma {:induction false} AndAtMost(a: nat, b: nat, w: nat)
    ensures Bitwise(AndOp, a, b, w) <= a
    decreases w
  {
    if w > 0 {
      AndAtMost(a / 2, b / 2, w - 1);
    }
  }

  lemma {:induction false} AndCommutes(a: nat, b: nat, w: nat)
    ensures Bitwise(AndOp, a, b, w) == Bitwise(AndOp, b, a, w)
    decreases w
  {
    if w > 0 {
      AndCommutes(a / 2, b / 2, w - 1);
    }
  }

  /** Exclusive or with the same operand twice gives back the low `w` bits. */
  lemma {:induction false} XorTwice(a: nat, b: nat, w: nat)
    requires a < Pow2(w)
    ensures Bitwise(XorOp, Bitwise(XorOp, a, b, w), b, w) == a
    decreases w
  {
    if w > 0 {
      var r := Bitwise(XorOp, a, b, w);
      var low := if (a % 2 == 1) != (b % 2 == 1) then 1 else 0;
      assert r == low + 2 * Bitwise(XorOp, a / 2, b / 2, w - 1);
      assert r / 2 == Bitwise(XorOp, a / 2, b / 2, w - 1);
      assert r % 2 == low;
      XorTwice(a / 2, b / 2, w - 1);
    }
  }

  lemma ByteXorTwice(a: byte, b: byte)
    ensures BitXor(BitXor(a, b), b) == a
  {
    Pow2Byte();
    XorTwice(a, b, 8);
  }

  /**
   * Bit `j` of a sprite row, counting from the most significant bit as the
   * source's `(byte >> (7 - j)) & 0x1` does.
   */
  predicate SpriteBit(row: byte, j: nat)
    requires j < 8
  {
    (row / Pow2(7 - j)) % 2 == 1
  }

  /** A row with any bit set has a set sprite bit. */
  lemma NonZeroRowHasBit(row: byte) returns (j: nat)
    requires row != 0
    ensures j < 8 && SpriteBit(row, j)
  {
    assert Pow2(1) == 2 && Pow2(2) == 4 && Pow2(3) == 8 && Pow2(4) == 16;
    assert Pow2(5) == 32 && Pow2(6) == 64 && Pow2(7) == 128;
    if row >= 128 { j := 0; }
    else if row >= 64 { j := 1; }
    else if row >= 32 { j := 2; }
    else if row >= 16 { j := 3; }
    else if row >= 8 { j := 4; }
    else if row >= 4 { j := 5; }
    else if row >= 2 { j := 6; }
    else { j := 7; }
  }
}

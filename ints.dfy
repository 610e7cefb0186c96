/** Machine integer types of the emulator, as unbounded integers with their range. */
module Ints {

  /** Rust's `u8`: a byte value or a small index. */
  type u8 = x: int | 0 <= x < 0x100

  /** Rust's `u16`: an opcode word, an address or the program counter. */
  type u16 = x: int | 0 <= x < 0x1_0000

  /** 2 to the power `n`. */
  function Pow2(n: nat): (p: nat)
    ensures p >= 1
  {
    if n == 0 then 1 else 2 * Pow2(n - 1)
  }

  // The bitwise operators on bytes, one bit at a time from the least
  // significant one: bit 0 of the result combines bits 0 of the operands,
  // and the rest is the operator applied to the operands halved.

  /** The low `n` bits of `a`. */
  function LowBits(a: nat, n: nat): (r: nat)
    ensures r < Pow2(n)
  {
    if n == 0 then 0 else 2 * LowBits(a / 2, n - 1) + a % 2
  }

  /** The low `n` bits of `a | b`. */
  function OrBits(a: nat, b: nat, n: nat): (r: nat)
    ensures r < Pow2(n)
  {
    if n == 0 then 0 else 2 * OrBits(a / 2, b / 2, n - 1) + (if a % 2 == 1 || b % 2 == 1 then 1 else 0)
  }

  /** The low `n` bits of `a & b`. */
  function AndBits(a: nat, b: nat, n: nat): (r: nat)
    ensures r < Pow2(n)
  {
    if n == 0 then 0 else 2 * AndBits(a / 2, b / 2, n - 1) + (if a % 2 == 1 && b % 2 == 1 then 1 else 0)
  }

  /** The low `n` bits of `a ^ b`. */
  function XorBits(a: nat, b: nat, n: nat): (r: nat)
    ensures r < Pow2(n)
  {
    if n == 0 then 0 else 2 * XorBits(a / 2, b / 2, n - 1) + (if (a % 2 == 1) != (b % 2 == 1) then 1 else 0)
  }

  /** `a | b` on bytes. */
  function BitOr(a: u8, b: u8): u8 {
    OrBits(a, b, 8)
  }

  /** `a & b` on bytes. */
  function BitAnd(a: u8, b: u8): u8 {
    AndBits(a, b, 8)
  }

  /** `a ^ b` on bytes. */
  function BitXor(a: u8, b: u8): u8 {
    XorBits(a, b, 8)
  }

  /** `(b & (0b1000_0000 >> i)) != 0`: bit `i` of `b`, counted from the most significant one. */
  predicate BitSet(b: u8, i: nat)
    requires i < 8
  {
    (b / Pow2(7 - i)) % 2 == 1
  }

  /** Every bit of 0xFF is set. */
  lemma FullByte(i: nat)
    requires i < 8
    ensures BitSet(0xFF, i)
  {
    if i == 0 { assert Pow2(7) == 128; }
    else if i == 1 { assert Pow2(6) == 64; }
    else if i == 2 { assert Pow2(5) == 32; }
    else if i == 3 { assert Pow2(4) == 16; }
    else if i == 4 { assert Pow2(3) == 8; }
    else if i == 5 { assert Pow2(2) == 4; }
    else if i == 6 { assert Pow2(1) == 2; }
  }

  /** A number below 2^n is its own low `n` bits. */
  lemma {:induction false} LowBitsOfSmall(a: nat, n: nat)
    requires a < Pow2(n)
    ensures LowBits(a, n) == a
  {
    if n > 0 {
      LowBitsOfSmall(a / 2, n - 1);
    }
  }

  /** `(a | b) & b` keeps exactly the bits of `b`. */
  lemma {:induction false} OrAndAbsorbBits(a: nat, b: nat, n: nat)
    ensures AndBits(OrBits(a, b, n), b, n) == LowBits(b, n)
  {
    if n > 0 {
      var o := OrBits(a, b, n);
      assert o / 2 == OrBits(a / 2, b / 2, n - 1) && o % 2 == (if a % 2 == 1 || b % 2 == 1 then 1 else 0);
      OrAndAbsorbBits(a / 2, b / 2, n - 1);
    }
  }

  /** `a | a` keeps exactly the bits of `a`. */
  lemma {:induction false} OrSelfBits(a: nat, n: nat)
    ensures OrBits(a, a, n) == LowBits(a, n)
  {
    if n > 0 {
      OrSelfBits(a / 2, n - 1);
    }
  }

  /** `(a ^ b) ^ b` gives back the bits of `a`. */
  lemma {:induction false} XorCancelBits(a: nat, b: nat, n: nat)
    ensures XorBits(XorBits(a, b, n), b, n) == LowBits(a, n)
  {
    if n > 0 {
      var x := XorBits(a, b, n);
      assert x / 2 == XorBits(a / 2, b / 2, n - 1) && x % 2 == (if (a % 2 == 1) != (b % 2 == 1) then 1 else 0);
      XorCancelBits(a / 2, b / 2, n - 1);
    }
  }

  /** `a ^ a` has no bit set. */
  lemma {:induction false} XorSelfBits(a: nat, n: nat)
    ensures XorBits(a, a, n) == 0
  {
    if n > 0 {
      XorSelfBits(a / 2, n - 1);
    }
  }

  /** `(a | b) & b == b` on bytes. */
  lemma OrAndAbsorb(a: u8, b: u8)
    ensures BitAnd(BitOr(a, b), b) == b
  {
    OrAndAbsorbBits(a, b, 8);
    LowBitsOfSmall(b, 8);
  }

  /** `a | a == a` on bytes. */
  lemma OrSelf(a: u8)
    ensures BitOr(a, a) == a
  {
    OrSelfBits(a, 8);
    LowBitsOfSmall(a, 8);
  }

  /** `(a ^ b) ^ b == a` and `a ^ a == 0` on bytes. */
  lemma XorCancels(a: u8, b: u8)
    ensures BitXor(BitXor(a, b), b) == a
    ensures BitXor(a, a) == 0
  {
    XorCancelBits(a, b, 8);
    LowBitsOfSmall(a, 8);
    XorSelfBits(a, 8);
  }
}

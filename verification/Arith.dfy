/** The 33-bit subtraction every comparison in the core goes through, and bitwise operations. */
module Arith {
  import opened Words

  const TWO33 := 0x2_0000_0000

  type Word33 = x: int | 0 <= x < 0x2_0000_0000

  /** 33'(a) and 33#(a). */
  function ZeroExtend(a: Word): Word33 { a }
  function SignExtend(a: Word): Word33 { if a < TWO31 then a else a + TWO32 }

  /** 33'(a) - 33'(b), and its two parts: bit 32 and the low word. */
  function Sub33(a: Word33, b: Word33): Word33 { (a - b) % TWO33 }
  predicate Borrow(a: Word33, b: Word33) { Sub33(a, b) >= TWO32 }
  function Difference(a: Word33, b: Word33): Word { Sub33(a, b) % TWO32 }

  lemma UnsignedLess(a: Word, b: Word)
    ensures Borrow(ZeroExtend(a), ZeroExtend(b)) <==> a < b
  {
  }

  lemma SignedLess(a: Word, b: Word)
    ensures Borrow(SignExtend(a), SignExtend(b)) <==> Signed(a) < Signed(b)
  {
  }

  /** The zero flag is right for both extensions. */
  lemma EqualIffZero(a: Word, b: Word)
    ensures Difference(ZeroExtend(a), ZeroExtend(b)) == 0 <==> a == b
    ensures Difference(SignExtend(a), SignExtend(b)) == 0 <==> a == b
  {
  }

  // ---- bitwise operations, bit by bit ----

  predicate BitAt(x: nat, k: nat) {
    if k == 0 then x % 2 == 1 else BitAt(x / 2, k - 1)
  }

  function PowerOfTwo(n: nat): (p: nat)
    ensures p > 0
  {
    if n == 0 then 1 else 2 * PowerOfTwo(n - 1)
  }

  /** The n-bit word whose bit k is op(bit k of a, bit k of b). */
  function Bitwise(op: (bool, bool) -> bool, a: nat, b: nat, n: nat): (r: nat)
    ensures r < PowerOfTwo(n)
  {
    if n == 0 then 0
    else (if op(a % 2 == 1, b % 2 == 1) then 1 else 0) + 2 * Bitwise(op, a / 2, b / 2, n - 1)
  }

  lemma {:induction false} BitwiseBits(op: (bool, bool) -> bool, a: nat, b: nat, n: nat, k: nat)
    requires k < n
    ensures BitAt(Bitwise(op, a, b, n), k) == op(BitAt(a, k), BitAt(b, k))
  {
    if k > 0 { BitwiseBits(op, a / 2, b / 2, n - 1, k - 1); }
  }

  lemma PowerOf32()
    ensures PowerOfTwo(32) == TWO32
  {
    assert PowerOfTwo(4) == 16;
    assert PowerOfTwo(8) == 16 * PowerOfTwo(4);
    assert PowerOfTwo(12) == 16 * PowerOfTwo(8);
    assert PowerOfTwo(16) == 16 * PowerOfTwo(12);
    assert PowerOfTwo(20) == 16 * PowerOfTwo(16);
    assert PowerOfTwo(24) == 16 * PowerOfTwo(20);
    assert PowerOfTwo(28) == 16 * PowerOfTwo(24);
    assert PowerOfTwo(32) == 16 * PowerOfTwo(28);
  }

  function Bitwise32(op: (bool, bool) -> bool, a: Word, b: Word): Word {
    PowerOf32();
    Bitwise(op, a, b, 32)
  }
}

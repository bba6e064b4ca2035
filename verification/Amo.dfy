/** The AMO ALU, and what section 8.4 of the RISC-V Unprivileged ISA 20191213 asks of it. */
module Amo {
  import opened Words
  import opened Arith

  type Funct5 = f: int | 0 <= f < 32

  const AMOADD_W: Funct5 := 0
  const AMOSWAP_W: Funct5 := 1
  const AMOXOR_W: Funct5 := 4
  const AMOOR_W: Funct5 := 8
  const AMOAND_W: Funct5 := 12
  const AMOMIN_W: Funct5 := 16
  const AMOMAX_W: Funct5 := 20
  const AMOMINU_W: Funct5 := 24
  const AMOMAXU_W: Funct5 := 28

  /** amoalu.exe; an undefined funct5, which the decoder rejects, drives nothing. */
  function Exe(rs1: Word, rs2: Word, f: Funct5): Word {
    if f == AMOADD_W then (rs1 + rs2) % TWO32
    else if f == AMOOR_W then Bitwise32((p, q) => p || q, rs1, rs2)
    else if f == AMOXOR_W then Bitwise32((p, q) => p != q, rs1, rs2)
    else if f == AMOAND_W then Bitwise32((p, q) => p && q, rs1, rs2)
    else if f == AMOSWAP_W then rs2
    else if f == AMOMIN_W then if Borrow(SignExtend(rs1), SignExtend(rs2)) then rs1 else rs2
    else if f == AMOMINU_W then if Borrow(ZeroExtend(rs1), ZeroExtend(rs2)) then rs1 else rs2
    else if f == AMOMAX_W then if Borrow(SignExtend(rs1), SignExtend(rs2)) then rs2 else rs1
    else if f == AMOMAXU_W then if Borrow(ZeroExtend(rs1), ZeroExtend(rs2)) then rs2 else rs1
    else 0
  }

  predicate EitherOf(x: Word, a: Word, b: Word) { x == a || x == b }

  /** What the new memory word must be, given the old one and the source register. */
  ghost predicate Means(f: Funct5, old_: Word, src: Word, new_: Word) {
    && (f == AMOSWAP_W ==> new_ == src)
    && (f == AMOADD_W ==> (new_ - old_ - src) % TWO32 == 0)
    && (f == AMOAND_W ==> forall k | 0 <= k < 32 :: BitAt(new_, k) == (BitAt(old_, k) && BitAt(src, k)))
    && (f == AMOOR_W ==> forall k | 0 <= k < 32 :: BitAt(new_, k) == (BitAt(old_, k) || BitAt(src, k)))
    && (f == AMOXOR_W ==> forall k | 0 <= k < 32 :: BitAt(new_, k) == (BitAt(old_, k) != BitAt(src, k)))
    && (f == AMOMIN_W ==> EitherOf(new_, old_, src) && Signed(new_) <= Signed(old_) && Signed(new_) <= Signed(src))
    && (f == AMOMAX_W ==> EitherOf(new_, old_, src) && Signed(new_) >= Signed(old_) && Signed(new_) >= Signed(src))
    && (f == AMOMINU_W ==> EitherOf(new_, old_, src) && new_ <= old_ && new_ <= src)
    && (f == AMOMAXU_W ==> EitherOf(new_, old_, src) && new_ >= old_ && new_ >= src)
  }

  lemma BitwiseMeans(op: (bool, bool) -> bool, a: Word, b: Word)
    ensures forall k | 0 <= k < 32 :: BitAt(Bitwise32(op, a, b), k) == op(BitAt(a, k), BitAt(b, k))
  {
    forall k | 0 <= k < 32
      ensures BitAt(Bitwise32(op, a, b), k) == op(BitAt(a, k), BitAt(b, k))
    {
      BitwiseBits(op, a, b, 32, k);
    }
  }

  lemma ExeMeans(rs1: Word, rs2: Word, f: Funct5)
    ensures Means(f, rs1, rs2, Exe(rs1, rs2, f))
  {
    SignedLess(rs1, rs2);
    UnsignedLess(rs1, rs2);
    if f == AMOOR_W { BitwiseMeans((p, q) => p || q, rs1, rs2); }
    if f == AMOXOR_W { BitwiseMeans((p, q) => p != q, rs1, rs2); }
    if f == AMOAND_W { BitwiseMeans((p, q) => p && q, rs1, rs2); }
  }
}

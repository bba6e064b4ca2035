/** The formats of section 4.3.1 of the RISC-V Privileged ISA 1.12, on numbers: what the fields of
    page-table entries and addresses are as bits of 32-bit words. */
module Sv32Format {
  import opened Words
  import opened Memory
  import opened Paging
  import opened Translation
  import opened Arith

  // ---- page-table entries ----

  lemma {:induction false} LowBitsOnly(h: nat, b: nat, n: nat, k: nat)
    requires k < n && b < PowerOfTwo(n)
    ensures BitAt(PowerOfTwo(n) * h + b, k) == BitAt(b, k)
  {
    var x, half := PowerOfTwo(n) * h + b, PowerOfTwo(n - 1);
    assert x == 2 * (half * h) + b;
    if k > 0 {
      assert x / 2 == half * h + b / 2;
      LowBitsOnly(h, b / 2, n - 1, k - 1);
    }
  }

  lemma LowByte(p: Lanes, k: nat)
    requires k < 8
    ensures BitAt(Value(p), k) == BitAt(p.b0, k)
  {
    var h := (p.b3 * 0x100 + p.b2) * 0x100 + p.b1;
    assert PowerOfTwo(8) == 256 && Value(p) == 256 * h + p.b0;
    LowBitsOnly(h, p.b0, 8, k);
  }

  lemma Quarters(b: nat)
    ensures b / 2 / 2 == b / 4 && b / 4 / 2 == b / 8
  {
  }

  lemma Sixteenths(b: nat)
    ensures b / 8 / 2 == b / 16 && b / 16 / 2 == b / 32
  {
  }

  lemma SixtyFourths(b: nat)
    ensures b / 32 / 2 == b / 64 && b / 64 / 2 == b / 128
  {
  }

  lemma BitOfByte(b: Byte, k: nat)
    requires k < 8
    ensures Bit(b, k) == BitAt(b, k)
  {
    Halving(b, k);
    Quarters(b);
    Sixteenths(b);
    SixtyFourths(b);
    HalvedSteps(b);
  }

  lemma HalvedSteps(b: nat)
    ensures Halved(b, 1) == b / 2 && Halved(b, 2) == b / 2 / 2 && Halved(b, 3) == b / 2 / 2 / 2
    ensures Halved(b, 4) == b / 2 / 2 / 2 / 2 && Halved(b, 5) == b / 2 / 2 / 2 / 2 / 2
    ensures Halved(b, 6) == b / 2 / 2 / 2 / 2 / 2 / 2 && Halved(b, 7) == b / 2 / 2 / 2 / 2 / 2 / 2 / 2
  {
  }

  /** Bit k is the parity after k halvings. */
  lemma {:induction false} Halving(b: nat, k: nat)
    ensures BitAt(b, k) == (Halved(b, k) % 2 == 1)
    decreases k
  {
    if k > 0 { Halving(b / 2, k - 1); }
  }

  function Halved(b: nat, k: nat): nat { if k == 0 then b else Halved(b / 2, k - 1) }

  /** Bits 7 to 0 of an entry are D, A, G, U, X, W, R and V; G is not looked at. */
  lemma EntryFlags(p: Lanes)
    ensures V(p) == BitAt(Value(p), 0) && R(p) == BitAt(Value(p), 1) && W(p) == BitAt(Value(p), 2)
    ensures X(p) == BitAt(Value(p), 3) && U(p) == BitAt(Value(p), 4)
    ensures A(p) == BitAt(Value(p), 6) && D(p) == BitAt(Value(p), 7)
  {
    forall k | 0 <= k < 8
      ensures Bit(p.b0, k) == BitAt(Value(p), k)
    {
      LowByte(p, k);
      BitOfByte(p.b0, k);
    }
  }

  /** Bits 31 to 20 are PPN[1] and bits 19 to 10 PPN[0]. */
  lemma EntryNumbers(p: Lanes)
    ensures Ppn(p) == Value(p) / 0x400 && Ppn0(p) == Value(p) / 0x400 % 0x400 && Ppn1(p) == Value(p) / 0x10_0000
  {
    var h := p.b3 * 0x1_0000 + p.b2 * 0x100 + p.b1;
    assert Value(p) == 256 * h + p.b0;
    assert Value(p) / 0x400 == h / 4;
    assert h / 4 == p.b3 * 0x4000 + p.b2 * 0x40 + p.b1 / 4;
  }

  // ---- addresses ----

  /** Bits 31 to 22 of a virtual address are VPN[1], bits 21 to 12 VPN[0], and 11 to 0 the page offset. */
  lemma AddressFields(a: Addr)
    ensures Vpn1(a.block.tag) == Num(a) / 0x40_0000 && Vpn0(a.block.tag) == Num(a) / 0x1000 % 0x400
    ensures Num(a) % 0x1000 == a.block.index * 16 + a.word * 4 + a.byte
  {
    var offset := a.block.index * 16 + a.word * 4 + a.byte;
    assert Num(a) == 0x1000 * a.block.tag + offset && offset < 0x1000;
    assert Num(a) / 0x1000 == a.block.tag;
  }

  /** Entry `part` of the table at page `ppn` is at ppn * 4096 + part * 4, of which the bus takes 32 bits. */
  lemma EntryAddress(ppn: PpnValue, part: nat)
    requires part < 0x400
    ensures Num(PteAddr(ppn, part)) == (ppn * 0x1000 + part * 4) % TWO32
  {
    assert part == 4 * (part / 4) + part % 4;
    var page, high := ppn % 0x10_0000, ppn / 0x10_0000;
    assert ppn == 0x10_0000 * high + page;
    assert ppn * 0x1000 + part * 4 == TWO32 * high + (page * 0x1000 + part * 4);
  }

  lemma WrapsAtPage(ppn: nat, offset: nat)
    requires offset < 0x1000
    ensures (ppn * 0x1000 + offset) % TWO32 == ppn % 0x10_0000 * 0x1000 + offset
  {
    var page, high := ppn % 0x10_0000, ppn / 0x10_0000;
    assert ppn == 0x10_0000 * high + page;
    assert ppn * 0x1000 + offset == TWO32 * high + (page * 0x1000 + offset);
  }

  lemma Remainder(q: nat, r: nat)
    requires r < 0x40_0000
    ensures (0x40_0000 * q + r) % 0x40_0000 == r
  {
  }

  lemma SuperpageOffset(va: Addr)
    ensures Num(va) % 0x40_0000 == 0x1000 * Vpn0(va.block.tag) + Num(va) % 0x1000
  {
    AddressFields(va);
    var tag, offset := va.block.tag, Num(va) % 0x1000;
    assert Num(va) == 0x1000 * tag + offset;
    assert tag == 0x400 * Vpn1(tag) + Vpn0(tag);
    Remainder(Vpn1(tag), 0x1000 * Vpn0(tag) + offset);
  }

  lemma InPage(ppn: nat, va: Addr)
    ensures Num(va.(block := BlockId(ppn % 0x10_0000, va.block.index))) == (ppn * 0x1000 + Num(va) % 0x1000) % TWO32
  {
    AddressFields(va);
    WrapsAtPage(ppn, Num(va) % 0x1000);
  }

  lemma InSuperpage(ppn1: nat, va: Addr)
    ensures (ppn1 * 0x400 + Vpn0(va.block.tag)) * 0x1000 + Num(va) % 0x1000 == ppn1 * 0x40_0000 + Num(va) % 0x40_0000
  {
    SuperpageOffset(va);
  }

  /** The physical address of a page, and of a superpage, modulo 2^32. */
  lemma PhysicalAddress(p: Lanes, level: nat, va: Addr)
    ensures var pa := va.(block := BlockId(SpecTag(p, level, va.block.tag), va.block.index));
            Num(pa) == (if level == 0 then Ppn(p) * 0x1000 + Num(va) % 0x1000
                        else Ppn1(p) * 0x40_0000 + Num(va) % 0x40_0000) % TWO32
  {
    if level == 0 {
      InPage(Ppn(p), va);
    } else {
      InSuperpage(Ppn1(p), va);
      InPage(Ppn1(p) * 0x400 + Vpn0(va.block.tag), va);
    }
  }
}

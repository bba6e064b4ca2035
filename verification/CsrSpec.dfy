/** What each CSR write, trap and return does to each register, bit by bit, by address and bit number. */
module CsrSpec {
  import opened Csr
  import Arith

  // ---- the registers by address ----

  predicate Known(r: int) {
    r in {MSTATUS, MEDELEG, MIDELEG, MIE, MTVEC, MEPC, MCAUSE, MIP, SSTATUS, SIE, STVEC, SEPC, SCAUSE, SIP,
          USTATUS, UIE, UTVEC, UEPC, UCAUSE, UIP}
  }

  /** Bit k of the register at address r. */
  predicate RegBit(c: Csrs, r: int, k: nat)
    requires k < 32
  {
    if r == MSTATUS then StatusBit(c.status.m, k) else if r == SSTATUS then StatusBit(c.status.s, k)
    else if r == USTATUS then StatusBit(c.status.u, k)
    else if r == MIE then IrqBit(c.ie.m, k) else if r == SIE then IrqBit(c.ie.s, k) else if r == UIE then IrqBit(c.ie.u, k)
    else if r == MIP then IrqBit(c.ip.m, k) else if r == SIP then IrqBit(c.ip.s, k) else if r == UIP then IrqBit(c.ip.u, k)
    else if r == MTVEC then TvecBit(c.tvec.m, k) else if r == STVEC then TvecBit(c.tvec.s, k)
    else if r == UTVEC then TvecBit(c.tvec.u, k)
    else if r == MEPC then c.epc.m[k] else if r == SEPC then c.epc.s[k] else if r == UEPC then c.epc.u[k]
    else if r == MCAUSE then c.cause.m[k] else if r == SCAUSE then c.cause.s[k] else if r == UCAUSE then c.cause.u[k]
    else if r == MEDELEG then c.medeleg[k] else if r == MIDELEG then c.mideleg[k]
    else false
  }

  /** The level an address asks for, as section 2.1 of the RISC-V Privileged ISA 1.12 encodes it. */
  function LevelOf(r: int): int { r / 0x100 % 4 }

  // ---- what a write sets ----

  /** The bits of register r that a write to addr sets: its own writable bits, and the same bits where
      another register shows them. A vector mode or previous privilege that is reserved is not stored. */
  predicate Sets(addr: int, r: int, k: nat, b: Bits32)
    requires k < 32
  {
    if addr == MSTATUS then
      || (r == MSTATUS && k in {0, 1, 3, 4, 5, 7, 8, 17, 18, 19, 20, 21, 22})
      || (r == MSTATUS && k in {11, 12} && !(b[12] && !b[11]))
      || (r == SSTATUS && k in {1, 5, 8, 18, 19}) || (r == USTATUS && k in {0, 4})
    else if addr == SSTATUS then r in {MSTATUS, SSTATUS} && k in {1, 5, 8, 18, 19}
    else if addr == USTATUS then r in {MSTATUS, SSTATUS, USTATUS} && k in {0, 4}
    else if addr == MIE then
      || (r == MIE && k in {0, 1, 3, 4, 5, 7, 8, 9, 11}) || (r == SIE && k in {0, 1, 4, 5, 8, 9})
      || (r == UIE && k in {0, 4, 8})
    else if addr == SIE then r in {MIE, SIE} && k in {1, 5, 9}
    else if addr == UIE then r in {MIE, SIE, UIE} && k in {0, 4, 8}
    else if addr == MIP then (r in {MIP, SIP} && k in {0, 1, 4, 5, 8, 9}) || (r == UIP && k in {0, 4, 8})
    else if addr == SIP then (r in {MIP, SIP} && k in {0, 1}) || (r == UIP && k == 0)
    else if addr == UIP then r in {MIP, SIP, UIP} && k == 0
    else if addr in {MTVEC, STVEC, UTVEC} then r == addr && (k >= 2 || !b[1])
    else if addr == MEDELEG then r == addr && k in {0, 1, 3, 5, 7, 8, 9, 12, 13, 15}
    else if addr == MIDELEG then r == addr && k in {1, 5, 9}
    else if addr in {MEPC, SEPC, UEPC, UCAUSE} then r == addr
    else false
  }

  /** Return addresses are aligned, but for uepc. */
  predicate Stored(addr: int, b: Bits32, k: nat)
    requires k < 32
  {
    if addr in {MEPC, SEPC} && k < 2 then false else b[k]
  }

  /** The one departure: a write of sie also sets the user pending bits to a wire nothing drives. */
  predicate SetsUndriven(addr: int, r: int, k: nat) { addr == SIE && r in {MIP, SIP, UIP} && k in {0, 4, 8} }

  predicate Expected(c: Csrs, addr: int, b: Bits32, undriven: Irqs, r: int, k: nat)
    requires k < 32
  {
    if Sets(addr, r, k, b) then Stored(addr, b, k)
    else if SetsUndriven(addr, r, k) then IrqBit(undriven, k)
    else RegBit(c, r, k)
  }

  ghost predicate WritesRight(c: Csrs, addr: int, b: Bits32, undriven: Irqs, c': Csrs) {
    c'.priv == c.priv && forall r: int, k: nat | Known(r) && k < 32 :: RegBit(c', r, k) == Expected(c, addr, b, undriven, r, k)
  }

  // ---- the writes ----

  lemma StatusFields(b: Bits32, k: nat)
    requires k in {0, 1, 3, 4, 5, 7, 8, 11, 12, 17, 18, 19, 20, 21, 22}
    ensures StatusBit(StatusOf(b), k) == b[k]
  {
  }

  lemma IrqFields(b: Bits32, k: nat)
    requires k in {0, 1, 3, 4, 5, 7, 8, 9, 11}
    ensures IrqBit(IrqsOf(b), k) == b[k]
  {
  }

  lemma TvecFields(old_: Tvec, b: Bits32, k: nat)
    requires k < 32
    ensures TvecBit(WriteTvec(old_, TvecOf(b)), k) == if k >= 2 || !b[1] then b[k] else TvecBit(old_, k)
  {
  }

  /** The fields that the S view of a status register writes, and those the U view writes. */
  lemma PutSupBit(to: Status, w: Status, k: nat)
    ensures StatusBit(PutSup(to, w), k) == if k in {1, 5, 8, 18, 19} then StatusBit(w, k) else StatusBit(to, k)
  {
  }

  lemma PutUserBit(to: Status, w: Status, k: nat)
    ensures StatusBit(PutUser(to, w), k) == if k in {0, 4} then StatusBit(w, k) else StatusBit(to, k)
  {
  }

  lemma MstatusBit(r: Regs<Status>, w: Status, k: nat)
    ensures StatusBit(WriteMstatus(r, w).m, k)
            == if k in {11, 12} && w.mpp == HYPERVISOR then StatusBit(r.m, k) else StatusBit(w, k)
  {
  }

  /** A bit no status register has is never set. */
  lemma NoSuchStatusBit(s: Status, k: nat)
    requires k !in {0, 1, 3, 4, 5, 7, 8, 11, 12, 17, 18, 19, 20, 21, 22}
    ensures !StatusBit(s, k)
  {
  }

  lemma WithSupBit(to: Irqs, w: Irqs, k: nat)
    ensures IrqBit(WithSup(to, w), k) == if k in {1, 5, 9} then IrqBit(w, k) else IrqBit(to, k)
  {
  }

  lemma WithUserBit(to: Irqs, w: Irqs, k: nat)
    ensures IrqBit(WithUser(to, w), k) == if k in {0, 4, 8} then IrqBit(w, k) else IrqBit(to, k)
  {
  }

  lemma NoSuchIrqBit(i: Irqs, k: nat)
    requires k !in {0, 1, 3, 4, 5, 7, 8, 9, 11}
    ensures !IrqBit(i, k)
  {
  }

  lemma SipBit(to: Irqs, w: Irqs, k: nat)
    ensures IrqBit(to.(ss := w.ss, us := w.us), k) == if k in {0, 1} then IrqBit(w, k) else IrqBit(to, k)
  {
  }

  lemma UipBit(to: Irqs, w: Irqs, k: nat)
    ensures IrqBit(to.(us := w.us), k) == if k == 0 then IrqBit(w, k) else IrqBit(to, k)
  {
  }

  lemma MstatusInM(c: Csrs, b: Bits32, undriven: Irqs, k: nat)
    requires k < 32
    ensures RegBit(WriteMachine(c, MSTATUS, b), MSTATUS, k) == Expected(c, MSTATUS, b, undriven, MSTATUS, k)
  {
    var w := StatusOf(b);
    MstatusBit(c.status, w, k);
    if k in {0, 1, 3, 4, 5, 7, 8, 11, 12, 17, 18, 19, 20, 21, 22} {
      StatusFields(b, k);
    } else {
      NoSuchStatusBit(w, k);
      NoSuchStatusBit(c.status.m, k);
    }
  }

  lemma MstatusInS(c: Csrs, b: Bits32, undriven: Irqs, k: nat)
    requires k < 32
    ensures RegBit(WriteMachine(c, MSTATUS, b), SSTATUS, k) == Expected(c, MSTATUS, b, undriven, SSTATUS, k)
  {
    PutSupBit(c.status.s, StatusOf(b), k);
    if k in {1, 5, 8, 18, 19} { StatusFields(b, k); }
  }

  lemma MstatusInU(c: Csrs, b: Bits32, undriven: Irqs, k: nat)
    requires k < 32
    ensures RegBit(WriteMachine(c, MSTATUS, b), USTATUS, k) == Expected(c, MSTATUS, b, undriven, USTATUS, k)
  {
    PutUserBit(c.status.u, StatusOf(b), k);
    if k in {0, 4} { StatusFields(b, k); }
  }

  lemma MstatusElsewhere(c: Csrs, b: Bits32, undriven: Irqs, r: int, k: nat)
    requires k < 32 && r !in {MSTATUS, SSTATUS, USTATUS}
    ensures RegBit(WriteMachine(c, MSTATUS, b), r, k) == Expected(c, MSTATUS, b, undriven, r, k)
  {
  }

  lemma MstatusBits(c: Csrs, b: Bits32, undriven: Irqs)
    ensures WritesRight(c, MSTATUS, b, undriven, WriteMachine(c, MSTATUS, b))
  {
    var c' := WriteMachine(c, MSTATUS, b);
    forall r: int, k: nat | Known(r) && k < 32
      ensures RegBit(c', r, k) == Expected(c, MSTATUS, b, undriven, r, k)
    {
      if r == MSTATUS { MstatusInM(c, b, undriven, k); }
      else if r == SSTATUS { MstatusInS(c, b, undriven, k); }
      else if r == USTATUS { MstatusInU(c, b, undriven, k); }
      else { MstatusElsewhere(c, b, undriven, r, k); }
    }
  }

  lemma SstatusBits(c: Csrs, b: Bits32, undriven: Irqs)
    ensures WritesRight(c, SSTATUS, b, undriven, WriteSupervisor(c, SSTATUS, b, undriven))
  {
    var c' := WriteSupervisor(c, SSTATUS, b, undriven);
    forall r: int, k: nat | Known(r) && k < 32
      ensures RegBit(c', r, k) == Expected(c, SSTATUS, b, undriven, r, k)
    {
      if Sets(SSTATUS, r, k, b) { StatusFields(b, k); }
      if r == MSTATUS { PutSupBit(c.status.m, StatusOf(b), k); }
      else if r == SSTATUS { PutSupBit(c.status.s, StatusOf(b), k); }
    }
  }

  lemma UstatusBits(c: Csrs, b: Bits32, undriven: Irqs)
    ensures WritesRight(c, USTATUS, b, undriven, WriteUser(c, USTATUS, b))
  {
    var c' := WriteUser(c, USTATUS, b);
    forall r: int, k: nat | Known(r) && k < 32
      ensures RegBit(c', r, k) == Expected(c, USTATUS, b, undriven, r, k)
    {
      if Sets(USTATUS, r, k, b) { StatusFields(b, k); }
      if r == MSTATUS { PutUserBit(c.status.m, StatusOf(b), k); }
      else if r == SSTATUS { PutUserBit(c.status.s, StatusOf(b), k); }
      else if r == USTATUS { PutUserBit(c.status.u, StatusOf(b), k); }
    }
  }

  lemma MieInMie(c: Csrs, b: Bits32, undriven: Irqs, k: nat)
    requires k < 32
    ensures RegBit(WriteMachine(c, MIE, b), MIE, k) == Expected(c, MIE, b, undriven, MIE, k)
  {
    if k in {0, 1, 3, 4, 5, 7, 8, 9, 11} {
      IrqFields(b, k);
    } else {
      NoSuchIrqBit(IrqsOf(b), k);
      NoSuchIrqBit(c.ie.m, k);
    }
  }

  lemma MieInSie(c: Csrs, b: Bits32, undriven: Irqs, k: nat)
    requires k < 32
    ensures RegBit(WriteMachine(c, MIE, b), SIE, k) == Expected(c, MIE, b, undriven, SIE, k)
  {
    var w := IrqsOf(b);
    WithSupBit(c.ie.s, w, k);
    WithUserBit(WithSup(c.ie.s, w), w, k);
    if k in {0, 1, 4, 5, 8, 9} { IrqFields(b, k); }
  }

  lemma MieInUie(c: Csrs, b: Bits32, undriven: Irqs, k: nat)
    requires k < 32
    ensures RegBit(WriteMachine(c, MIE, b), UIE, k) == Expected(c, MIE, b, undriven, UIE, k)
  {
    WithUserBit(c.ie.u, IrqsOf(b), k);
    if k in {0, 4, 8} { IrqFields(b, k); }
  }

  lemma MieElsewhere(c: Csrs, b: Bits32, undriven: Irqs, r: int, k: nat)
    requires k < 32 && r !in {MIE, SIE, UIE}
    ensures RegBit(WriteMachine(c, MIE, b), r, k) == Expected(c, MIE, b, undriven, r, k)
  {
  }

  lemma MieBits(c: Csrs, b: Bits32, undriven: Irqs)
    ensures WritesRight(c, MIE, b, undriven, WriteMachine(c, MIE, b))
  {
    var c' := WriteMachine(c, MIE, b);
    forall r: int, k: nat | Known(r) && k < 32
      ensures RegBit(c', r, k) == Expected(c, MIE, b, undriven, r, k)
    {
      if r == MIE { MieInMie(c, b, undriven, k); }
      else if r == SIE { MieInSie(c, b, undriven, k); }
      else if r == UIE { MieInUie(c, b, undriven, k); }
      else { MieElsewhere(c, b, undriven, r, k); }
    }
  }

  lemma SieInMie(c: Csrs, b: Bits32, undriven: Irqs, k: nat)
    requires k < 32
    ensures RegBit(WriteSupervisor(c, SIE, b, undriven), MIE, k) == Expected(c, SIE, b, undriven, MIE, k)
  {
    WithSupBit(c.ie.m, IrqsOf(b), k);
    if k in {1, 5, 9} { IrqFields(b, k); }
  }

  lemma SieInSie(c: Csrs, b: Bits32, undriven: Irqs, k: nat)
    requires k < 32
    ensures RegBit(WriteSupervisor(c, SIE, b, undriven), SIE, k) == Expected(c, SIE, b, undriven, SIE, k)
  {
    WithSupBit(c.ie.s, IrqsOf(b), k);
    if k in {1, 5, 9} { IrqFields(b, k); }
  }

  lemma SieInMip(c: Csrs, b: Bits32, undriven: Irqs, k: nat)
    requires k < 32
    ensures RegBit(WriteSupervisor(c, SIE, b, undriven), MIP, k) == Expected(c, SIE, b, undriven, MIP, k)
  {
    WithUserBit(c.ip.m, undriven, k);
  }

  lemma SieInSip(c: Csrs, b: Bits32, undriven: Irqs, k: nat)
    requires k < 32
    ensures RegBit(WriteSupervisor(c, SIE, b, undriven), SIP, k) == Expected(c, SIE, b, undriven, SIP, k)
  {
    WithUserBit(c.ip.s, undriven, k);
  }

  lemma SieInUip(c: Csrs, b: Bits32, undriven: Irqs, k: nat)
    requires k < 32
    ensures RegBit(WriteSupervisor(c, SIE, b, undriven), UIP, k) == Expected(c, SIE, b, undriven, UIP, k)
  {
    WithUserBit(c.ip.u, undriven, k);
  }

  lemma SieElsewhere(c: Csrs, b: Bits32, undriven: Irqs, r: int, k: nat)
    requires k < 32 && r !in {MIE, SIE, MIP, SIP, UIP}
    ensures RegBit(WriteSupervisor(c, SIE, b, undriven), r, k) == Expected(c, SIE, b, undriven, r, k)
  {
  }

  lemma SieBits(c: Csrs, b: Bits32, undriven: Irqs)
    ensures WritesRight(c, SIE, b, undriven, WriteSupervisor(c, SIE, b, undriven))
  {
    var c' := WriteSupervisor(c, SIE, b, undriven);
    forall r: int, k: nat | Known(r) && k < 32
      ensures RegBit(c', r, k) == Expected(c, SIE, b, undriven, r, k)
    {
      if r == MIE { SieInMie(c, b, undriven, k); }
      else if r == SIE { SieInSie(c, b, undriven, k); }
      else if r == MIP { SieInMip(c, b, undriven, k); }
      else if r == SIP { SieInSip(c, b, undriven, k); }
      else if r == UIP { SieInUip(c, b, undriven, k); }
      else { SieElsewhere(c, b, undriven, r, k); }
    }
  }

  lemma UieBits(c: Csrs, b: Bits32, undriven: Irqs)
    ensures WritesRight(c, UIE, b, undriven, WriteUser(c, UIE, b))
  {
    var c' := WriteUser(c, UIE, b);
    forall r: int, k: nat | Known(r) && k < 32
      ensures RegBit(c', r, k) == Expected(c, UIE, b, undriven, r, k)
    {
      if Sets(UIE, r, k, b) { IrqFields(b, k); }
      if r == MIE { WithUserBit(c.ie.m, IrqsOf(b), k); }
      else if r == SIE { WithUserBit(c.ie.s, IrqsOf(b), k); }
      else if r == UIE { WithUserBit(c.ie.u, IrqsOf(b), k); }
    }
  }

  lemma MipInMip(c: Csrs, b: Bits32, undriven: Irqs, k: nat)
    requires k < 32
    ensures RegBit(WriteMachine(c, MIP, b), MIP, k) == Expected(c, MIP, b, undriven, MIP, k)
  {
    var w := IrqsOf(b);
    WithSupBit(c.ip.m, w, k);
    WithUserBit(WithSup(c.ip.m, w), w, k);
    if k in {0, 1, 4, 5, 8, 9} { IrqFields(b, k); }
  }

  lemma MipInSip(c: Csrs, b: Bits32, undriven: Irqs, k: nat)
    requires k < 32
    ensures RegBit(WriteMachine(c, MIP, b), SIP, k) == Expected(c, MIP, b, undriven, SIP, k)
  {
    var w := IrqsOf(b);
    WithSupBit(c.ip.s, w, k);
    WithUserBit(WithSup(c.ip.s, w), w, k);
    if k in {0, 1, 4, 5, 8, 9} { IrqFields(b, k); }
  }

  lemma MipInUip(c: Csrs, b: Bits32, undriven: Irqs, k: nat)
    requires k < 32
    ensures RegBit(WriteMachine(c, MIP, b), UIP, k) == Expected(c, MIP, b, undriven, UIP, k)
  {
    WithUserBit(c.ip.u, IrqsOf(b), k);
    if k in {0, 4, 8} { IrqFields(b, k); }
  }

  lemma MipElsewhere(c: Csrs, b: Bits32, undriven: Irqs, r: int, k: nat)
    requires k < 32 && r !in {MIP, SIP, UIP}
    ensures RegBit(WriteMachine(c, MIP, b), r, k) == Expected(c, MIP, b, undriven, r, k)
  {
  }

  lemma MipBits(c: Csrs, b: Bits32, undriven: Irqs)
    ensures WritesRight(c, MIP, b, undriven, WriteMachine(c, MIP, b))
  {
    var c' := WriteMachine(c, MIP, b);
    forall r: int, k: nat | Known(r) && k < 32
      ensures RegBit(c', r, k) == Expected(c, MIP, b, undriven, r, k)
    {
      if r == MIP { MipInMip(c, b, undriven, k); }
      else if r == SIP { MipInSip(c, b, undriven, k); }
      else if r == UIP { MipInUip(c, b, undriven, k); }
      else { MipElsewhere(c, b, undriven, r, k); }
    }
  }

  lemma SipBits(c: Csrs, b: Bits32, undriven: Irqs)
    ensures WritesRight(c, SIP, b, undriven, WriteSupervisor(c, SIP, b, undriven))
  {
    var c' := WriteSupervisor(c, SIP, b, undriven);
    forall r: int, k: nat | Known(r) && k < 32
      ensures RegBit(c', r, k) == Expected(c, SIP, b, undriven, r, k)
    {
      if Sets(SIP, r, k, b) { IrqFields(b, k); }
      if r == MIP { SipBit(c.ip.m, IrqsOf(b), k); }
      else if r == SIP { SipBit(c.ip.s, IrqsOf(b), k); }
      else if r == UIP { UipBit(c.ip.u, IrqsOf(b), k); }
    }
  }

  lemma UipBits(c: Csrs, b: Bits32, undriven: Irqs)
    ensures WritesRight(c, UIP, b, undriven, WriteUser(c, UIP, b))
  {
    var c' := WriteUser(c, UIP, b);
    forall r: int, k: nat | Known(r) && k < 32
      ensures RegBit(c', r, k) == Expected(c, UIP, b, undriven, r, k)
    {
      if Sets(UIP, r, k, b) { IrqFields(b, k); }
      if r == MIP { UipBit(c.ip.m, IrqsOf(b), k); }
      else if r == SIP { UipBit(c.ip.s, IrqsOf(b), k); }
      else if r == UIP { UipBit(c.ip.u, IrqsOf(b), k); }
    }
  }

  lemma MedelegBit(old_: Bits32, b: Bits32, k: nat)
    requires k < 32
    ensures WriteMedeleg(old_, b)[k] == if k in {0, 1, 3, 5, 7, 8, 9, 12, 13, 15} then b[k] else old_[k]
  {
  }

  lemma MidelegBit(old_: Bits32, b: Bits32, k: nat)
    requires k < 32
    ensures WriteMideleg(old_, b)[k] == if k in {1, 5, 9} then b[k] else old_[k]
  {
  }

  lemma MedelegBits(c: Csrs, b: Bits32, undriven: Irqs)
    ensures WritesRight(c, MEDELEG, b, undriven, WriteMachine(c, MEDELEG, b))
  {
    var c' := WriteMachine(c, MEDELEG, b);
    forall r: int, k: nat | Known(r) && k < 32
      ensures RegBit(c', r, k) == Expected(c, MEDELEG, b, undriven, r, k)
    {
      MedelegBit(c.medeleg, b, k);
    }
  }

  lemma MidelegBits(c: Csrs, b: Bits32, undriven: Irqs)
    ensures WritesRight(c, MIDELEG, b, undriven, WriteMachine(c, MIDELEG, b))
  {
    var c' := WriteMachine(c, MIDELEG, b);
    forall r: int, k: nat | Known(r) && k < 32
      ensures RegBit(c', r, k) == Expected(c, MIDELEG, b, undriven, r, k)
    {
      MidelegBit(c.mideleg, b, k);
    }
  }

  lemma MachineRest(c: Csrs, addr: int, b: Bits32, undriven: Irqs)
    requires addr in {MTVEC, MEPC, MCAUSE}
    ensures WritesRight(c, addr, b, undriven, WriteMachine(c, addr, b))
  {
    var c' := WriteMachine(c, addr, b);
    forall r: int, k: nat | Known(r) && k < 32
      ensures RegBit(c', r, k) == Expected(c, addr, b, undriven, r, k)
    {
      TvecFields(c.tvec.m, b, k);
    }
  }

  lemma SupervisorRest(c: Csrs, addr: int, b: Bits32, undriven: Irqs)
    requires addr in {STVEC, SEPC, SCAUSE}
    ensures WritesRight(c, addr, b, undriven, WriteSupervisor(c, addr, b, undriven))
  {
    var c' := WriteSupervisor(c, addr, b, undriven);
    forall r: int, k: nat | Known(r) && k < 32
      ensures RegBit(c', r, k) == Expected(c, addr, b, undriven, r, k)
    {
      TvecFields(c.tvec.s, b, k);
    }
  }

  lemma UserRest(c: Csrs, addr: int, b: Bits32, undriven: Irqs)
    requires addr in {UTVEC, UEPC, UCAUSE}
    ensures WritesRight(c, addr, b, undriven, WriteUser(c, addr, b))
  {
    var c' := WriteUser(c, addr, b);
    forall r: int, k: nat | Known(r) && k < 32
      ensures RegBit(c', r, k) == Expected(c, addr, b, undriven, r, k)
    {
      TvecFields(c.tvec.u, b, k);
    }
  }

  /** A write from a level that may make it stores what was written, in every register that shows the bit,
      and changes no other bit of any register; from a lower level it changes nothing. */
  lemma WriteStores(c: Csrs, addr: int, b: Bits32, undriven: Irqs)
    requires Known(addr)
    ensures var c' := Write(c, addr, b, undriven);
            if c.priv >= LevelOf(addr) then WritesRight(c, addr, b, undriven, c') else c' == c
  {
    if addr == MSTATUS { MstatusBits(c, b, undriven); }
    else if addr == SSTATUS { SstatusBits(c, b, undriven); }
    else if addr == USTATUS { UstatusBits(c, b, undriven); }
    else if addr == MIE { MieBits(c, b, undriven); }
    else if addr == SIE { SieBits(c, b, undriven); }
    else if addr == UIE { UieBits(c, b, undriven); }
    else if addr == MIP { MipBits(c, b, undriven); }
    else if addr == SIP { SipBits(c, b, undriven); }
    else if addr == UIP { UipBits(c, b, undriven); }
    else if addr == MEDELEG { MedelegBits(c, b, undriven); }
    else if addr == MIDELEG { MidelegBits(c, b, undriven); }
    else if addr >= 0x300 { MachineRest(c, addr, b, undriven); }
    else if addr >= 0x100 { SupervisorRest(c, addr, b, undriven); }
    else { UserRest(c, addr, b, undriven); }
  }

  /** A write to any other address changes none of these registers. */
  lemma OtherWritesChangeNothing(c: Csrs, addr: int, b: Bits32, undriven: Irqs)
    requires !Known(addr)
    ensures Write(c, addr, b, undriven) == c
  {
  }

  // ---- reads ----

  /** A read from a level that may make it returns the register, for mip with the pending wires; from a
      lower level it is not mapped. */
  lemma ReadReturns(c: Csrs, addr: int, wires: Irqs, k: nat)
    requires Known(addr) && k < 32
    ensures var v := Read(c, addr, wires);
            if c.priv < LevelOf(addr) then v.NotMapped?
            else v.Reads? && (v.value[k] <==> RegBit(c, addr, k) || (addr == MIP && (IrqBit(wires, k) || k == 10)))
  {
  }

  /** What is written is read back, where it is stored. */
  lemma ReadAfterWrite(c: Csrs, addr: int, b: Bits32, undriven: Irqs, wires: Irqs, k: nat)
    requires Known(addr) && k < 32 && c.priv >= LevelOf(addr) && addr != MIP && Sets(addr, addr, k, b)
    ensures var v := Read(Write(c, addr, b, undriven), addr, wires); v.Reads? && v.value[k] == Stored(addr, b, k)
  {
    WriteStores(c, addr, b, undriven);
    ReadReturns(Write(c, addr, b, undriven), addr, wires, k);
  }

  // ---- traps ----

  function CauseReg(to: Level): int { if to == MACHINE then MCAUSE else if to == SUPERVISOR then SCAUSE else UCAUSE }

  /** A trap to U stores its PC in mepc, as one to M does. */
  function EpcReg(to: Level): int { if to == SUPERVISOR then SEPC else MEPC }

  /** The status registers that show the trap state of a level. */
  predicate ShowsTrap(to: Level, r: int) {
    (r == MSTATUS) || (r == SSTATUS && to != MACHINE) || (r == USTATUS && to == USER)
  }

  /** Bit k of register r after a trap to `to`. */
  predicate AfterTrap(c: Csrs, to: Level, cause: Cause, pc: Bits32, r: int, k: nat)
    requires k < 32
  {
    if r == CauseReg(to) then cause[k]
    else if r == EpcReg(to) then pc[k]
    else if !ShowsTrap(to, r) then RegBit(c, r, k)
    else if to == MACHINE then
      if k == 3 then false
      else if k == 7 then RegBit(c, MSTATUS, 3)
      else if k == 11 then c.priv == 1 || c.priv == 3
      else if k == 12 then c.priv >= 2
      else RegBit(c, r, k)
    else if to == SUPERVISOR then
      if k == 1 then false
      else if k == 5 then RegBit(c, SSTATUS, 1)
      else if k == 8 then c.priv == 1 || c.priv == 3
      else RegBit(c, r, k)
    else
      if k == 0 then false else if k == 4 then RegBit(c, USTATUS, 0) else RegBit(c, r, k)
  }

  /** A trap records its cause, its PC, the level it came from and the old enable, clears the enable, goes
      to its level, and changes no other bit of any register. */
  lemma TrapRecords(c: Csrs, to: Level, cause: Cause, pc: Bits32, r: int, k: nat)
    requires to != HYPERVISOR && Known(r) && k < 32
    ensures var c' := Step(c, Trap(to, cause, pc));
            c'.priv == to && RegBit(c', r, k) == AfterTrap(c, to, cause, pc, r, k)
  {
    if to == MACHINE { TrapToMachine(c, cause, pc, r, k); }
    else if to == SUPERVISOR { TrapToSupervisor(c, cause, pc, r, k); }
    else { TrapToUser(c, cause, pc, r, k); }
  }

  lemma TrapToMachine(c: Csrs, cause: Cause, pc: Bits32, r: int, k: nat)
    requires Known(r) && k < 32
    ensures RegBit(TrapTo(c, MACHINE, cause, pc), r, k) == AfterTrap(c, MACHINE, cause, pc, r, k)
  {
  }

  lemma TrapToSupervisor(c: Csrs, cause: Cause, pc: Bits32, r: int, k: nat)
    requires Known(r) && k < 32
    ensures RegBit(TrapTo(c, SUPERVISOR, cause, pc), r, k) == AfterTrap(c, SUPERVISOR, cause, pc, r, k)
  {
  }

  lemma TrapToUser(c: Csrs, cause: Cause, pc: Bits32, r: int, k: nat)
    requires Known(r) && k < 32
    ensures RegBit(TrapTo(c, USER, cause, pc), r, k) == AfterTrap(c, USER, cause, pc, r, k)
  {
  }

  // ---- where a trap goes ----

  /** Number is what the bits denote. */
  lemma {:induction false} NumberBits(b: seq<bool>, k: nat)
    requires k < |b|
    ensures Arith.BitAt(Number(b), k) == b[k]
    decreases k
  {
    if k > 0 { NumberBits(b[1..], k - 1); }
  }

  /** The address driven to the pipeline. */
  function Address(t: Target): int
    requires t.At?
  {
    (4 * Number(t.base) + t.plus) % 0x1_0000_0000
  }

  lemma TvecNumber(t: Tvec)
    ensures Number(TvecBits(t)) == 4 * Number(t.base) + t.mode
  {
    var b := TvecBits(t);
    assert b[1..][1..] == t.base;
    assert Number(b) == (if b[0] then 1 else 0) + 2 * Number(b[1..]);
    assert Number(b[1..]) == (if b[1] then 1 else 0) + 2 * Number(b[1..][1..]);
  }

  /** The vector is the register without its two mode bits; in mode 1 an interrupt adds four times its code. */
  lemma VectorIs(t: Tvec, cause: Cause)
    requires t.mode < 2
    ensures var v := Vector(t, cause);
            v.At? && Address(v) == (Number(TvecBits(t)) - t.mode
                                    + (if t.mode == 1 && cause[31] then 4 * Number(cause[..10]) else 0)) % 0x1_0000_0000
  {
    TvecNumber(t);
  }

  function TvecReg(to: Level): int { if to == MACHINE then MTVEC else if to == SUPERVISOR then STVEC else UTVEC }

  /** A register as its 32 bits. */
  function Bits(c: Csrs, r: int): Bits32 { seq(32, k requires 0 <= k < 32 => RegBit(c, r, k)) }

  lemma TvecOfLevel(c: Csrs, to: Level)
    requires to != HYPERVISOR
    ensures TvecBits(TvecFor(c, to)) == Bits(c, TvecReg(to))
  {
  }

  lemma ModeBits(t: Tvec)
    requires !TvecBits(t)[1]
    ensures t.mode == if TvecBits(t)[0] then 1 else 0
  {
  }

  lemma VectorFromBits(t: Tvec, b: Bits32, cause: Cause)
    requires b == TvecBits(t) && !b[1]
    ensures var v := Vector(t, cause);
            v.At? && Address(v) == (Number(b) - Number(b) % 4
                                    + (if b[0] && cause[31] then 4 * Number(cause[..10]) else 0)) % 0x1_0000_0000
  {
    ModeBits(t);
    TvecNumber(t);
    FourthPart(Number(t.base), t.mode);
    VectorIs(t, cause);
  }

  lemma FourthPart(n: nat, mode: nat)
    requires mode < 4
    ensures (4 * n + mode) % 4 == mode
  {
  }

  /** A trap goes to the address its level's vector register holds without its mode bits; an interrupt, when
      bit 0 is set, four times its code further on. */
  lemma TrapGoes(c: Csrs, to: Level, cause: Cause)
    requires to != HYPERVISOR && !RegBit(c, TvecReg(to), 1)
    ensures var v := Vector(TvecFor(c, to), cause); var b := Bits(c, TvecReg(to));
            v.At? && Address(v) == (Number(b) - Number(b) % 4
                                    + (if b[0] && cause[31] then 4 * Number(cause[..10]) else 0)) % 0x1_0000_0000
  {
    TvecOfLevel(c, to);
    VectorFromBits(TvecFor(c, to), Bits(c, TvecReg(to)), cause);
  }

  // ---- returns ----

  predicate AfterMret(c: Csrs, r: int, k: nat)
    requires k < 32
  {
    if r == MSTATUS && k == 3 then RegBit(c, MSTATUS, 7)
    else if r == MSTATUS && k in {7, 11, 12} then true
    else if r in {MSTATUS, SSTATUS} && k == 17 then c.status.m.mpp == MACHINE && RegBit(c, SSTATUS, 17)
    else RegBit(c, r, k)
  }

  predicate AfterSret(c: Csrs, r: int, k: nat)
    requires k < 32
  {
    if r in {MSTATUS, SSTATUS} && k == 1 then RegBit(c, SSTATUS, 5)
    else if r in {MSTATUS, SSTATUS} && k == 5 then true
    else if r in {MSTATUS, SSTATUS} && k == 17 then c.status.m.mpp == MACHINE && RegBit(c, SSTATUS, 17)
    else RegBit(c, r, k)
  }

  predicate AfterUret(c: Csrs, r: int, k: nat)
    requires k < 32
  {
    if r in {MSTATUS, SSTATUS, USTATUS} && k == 0 then RegBit(c, USTATUS, 4)
    else if r in {MSTATUS, SSTATUS, USTATUS} && k == 4 then true
    else if r in {MSTATUS, SSTATUS} && k == 17 then false
    else RegBit(c, r, k)
  }

  /** A return restores the enable from its stacked copy, sets that, goes to the stacked level, and changes
      nothing else but mprv and, for mret, mpp. */
  lemma ReturnsRestore(c: Csrs, r: int, k: nat)
    requires Known(r) && k < 32
    ensures Step(c, DoMret).priv == c.status.m.mpp && RegBit(Step(c, DoMret), r, k) == AfterMret(c, r, k)
    ensures Step(c, DoSret).priv == (if RegBit(c, SSTATUS, 8) then SUPERVISOR else USER)
    ensures RegBit(Step(c, DoSret), r, k) == AfterSret(c, r, k)
    ensures Step(c, DoUret).priv == USER && RegBit(Step(c, DoUret), r, k) == AfterUret(c, r, k)
  {
    MretRestores(c, r, k);
    SretRestores(c, r, k);
    UretRestores(c, r, k);
  }

  lemma MretRestores(c: Csrs, r: int, k: nat)
    requires Known(r) && k < 32
    ensures RegBit(Mret(c), r, k) == AfterMret(c, r, k)
  {
  }

  lemma SretRestores(c: Csrs, r: int, k: nat)
    requires Known(r) && k < 32
    ensures RegBit(Sret(c), r, k) == AfterSret(c, r, k)
  {
  }

  lemma UretRestores(c: Csrs, r: int, k: nat)
    requires Known(r) && k < 32
    ensures RegBit(Uret(c), r, k) == AfterUret(c, r, k)
  {
    if r in {MSTATUS, SSTATUS, USTATUS} { UretStatus(c, r, k); } else { UretElsewhere(c, r, k); }
  }

  lemma UretStatus(c: Csrs, r: int, k: nat)
    requires r in {MSTATUS, SSTATUS, USTATUS} && k < 32
    ensures RegBit(Uret(c), r, k) == AfterUret(c, r, k)
  {
  }

  lemma UretElsewhere(c: Csrs, r: int, k: nat)
    requires Known(r) && r !in {MSTATUS, SSTATUS, USTATUS} && k < 32
    ensures RegBit(Uret(c), r, k) == AfterUret(c, r, k)
  {
  }
}

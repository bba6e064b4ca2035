/** What every run of CSR writes, traps and returns keeps, and what traps and returns undo. */
module CsrProof {
  import opened Csr

  // ---- the duplicated registers ----

  /** mstatus and its S and U copies, bit by bit. */
  predicate StatusAgree(r: Regs<Status>) {
    && r.s.sie == r.m.sie && r.s.spie == r.m.spie && r.s.spp == r.m.spp && r.s.sum == r.m.sum && r.s.mxr == r.m.mxr
    && r.u.uie == r.m.uie && r.u.upie == r.m.upie
  }

  /** mie (or mip) and its S and U copies: the supervisor bits in S, the user bits in both. */
  predicate IrqsAgree(r: Regs<Irqs>) {
    && r.s.se == r.m.se && r.s.st == r.m.st && r.s.ss == r.m.ss
    && r.s.ue == r.m.ue && r.s.ut == r.m.ut && r.s.us == r.m.us
    && r.u.ue == r.m.ue && r.u.ut == r.m.ut && r.u.us == r.m.us
  }

  /** Every copy of a bit has the same value. */
  predicate CopiesAgree(c: Csrs) {
    StatusAgree(c.status) && IrqsAgree(c.ie) && IrqsAgree(c.ip)
  }

  // ---- legal values ----

  predicate DelegableException(k: nat) { k in {0, 1, 3, 5, 7, 8, 9, 12, 13, 15} }
  predicate DelegableInterrupt(k: nat) { k in {1, 5, 9} }

  predicate StatusLegal(r: Regs<Status>) { r.m.mpp != HYPERVISOR && !r.s.mprv }
  predicate TvecLegal(r: Regs<Tvec>) { r.m.mode < 2 && r.s.mode < 2 && r.u.mode < 2 }

  predicate OnlyExceptions(medeleg: Bits32) {
    forall k | 0 <= k < 32 && !DelegableException(k) :: !medeleg[k]
  }

  predicate OnlyInterrupts(mideleg: Bits32) {
    forall k | 0 <= k < 32 && !DelegableInterrupt(k) :: !mideleg[k]
  }

  predicate LegalValues(c: Csrs) {
    c.priv != HYPERVISOR && StatusLegal(c.status) && TvecLegal(c.tvec) && OnlyExceptions(c.medeleg) && OnlyInterrupts(c.mideleg)
  }

  lemma MstatusWriteKeeps(r: Regs<Status>, w: Status)
    requires StatusAgree(r) && StatusLegal(r)
    ensures StatusAgree(WriteMstatus(r, w)) && StatusLegal(WriteMstatus(r, w))
  {
  }

  lemma SstatusWriteKeeps(r: Regs<Status>, w: Status)
    requires StatusAgree(r) && StatusLegal(r)
    ensures StatusAgree(WriteSstatus(r, w)) && StatusLegal(WriteSstatus(r, w))
  {
  }

  lemma UstatusWriteKeeps(r: Regs<Status>, w: Status)
    requires StatusAgree(r) && StatusLegal(r)
    ensures StatusAgree(WriteUstatus(r, w)) && StatusLegal(WriteUstatus(r, w))
  {
  }

  lemma MieWriteKeeps(r: Regs<Irqs>, w: Irqs)
    requires IrqsAgree(r)
    ensures IrqsAgree(WriteMie(r, w))
  {
  }

  lemma SieWriteKeeps(r: Regs<Irqs>, w: Irqs)
    requires IrqsAgree(r)
    ensures IrqsAgree(WriteSie(r, w))
  {
  }

  lemma UserBitsWriteKeeps(r: Regs<Irqs>, w: Irqs)
    requires IrqsAgree(r)
    ensures IrqsAgree(WriteUserBits(r, w))
  {
  }

  lemma MipWriteKeeps(r: Regs<Irqs>, w: Irqs)
    requires IrqsAgree(r)
    ensures IrqsAgree(WriteMip(r, w))
  {
  }

  lemma SipWriteKeeps(r: Regs<Irqs>, w: Irqs)
    requires IrqsAgree(r)
    ensures IrqsAgree(WriteSip(r, w))
  {
  }

  lemma UipWriteKeeps(r: Regs<Irqs>, w: Irqs)
    requires IrqsAgree(r)
    ensures IrqsAgree(WriteUip(r, w))
  {
  }

  lemma DelegationWritesKeep(old_: Bits32, b: Bits32)
    ensures OnlyExceptions(old_) ==> OnlyExceptions(WriteMedeleg(old_, b))
    ensures OnlyInterrupts(old_) ==> OnlyInterrupts(WriteMideleg(old_, b))
  {
    assert forall k | 0 <= k < 32 && !DelegableException(k) :: WriteMedeleg(old_, b)[k] == old_[k];
    assert forall k | 0 <= k < 32 && !DelegableInterrupt(k) :: WriteMideleg(old_, b)[k] == old_[k];
  }

  lemma TvecWritesKeep(r: Regs<Tvec>, w: Tvec)
    requires TvecLegal(r)
    ensures TvecLegal(r.(m := WriteTvec(r.m, w))) && TvecLegal(r.(s := WriteTvec(r.s, w)))
    ensures TvecLegal(r.(u := WriteTvec(r.u, w)))
  {
  }

  lemma MachineWritesKeep(c: Csrs, addr: int, b: Bits32)
    requires CopiesAgree(c) && LegalValues(c)
    ensures CopiesAgree(WriteMachine(c, addr, b)) && LegalValues(WriteMachine(c, addr, b))
  {
    if addr == MSTATUS {
      MstatusWriteKeeps(c.status, StatusOf(b));
    } else if addr == MEDELEG {
      DelegationWritesKeep(c.medeleg, b);
    } else if addr == MIDELEG {
      DelegationWritesKeep(c.mideleg, b);
    } else if addr == MIE {
      MieWriteKeeps(c.ie, IrqsOf(b));
    } else if addr == MTVEC {
      TvecWritesKeep(c.tvec, TvecOf(b));
    } else if addr == MIP {
      MipWriteKeeps(c.ip, IrqsOf(b));
    }
  }

  lemma SupervisorWritesKeep(c: Csrs, addr: int, b: Bits32, undriven: Irqs)
    requires CopiesAgree(c) && LegalValues(c)
    ensures var c' := WriteSupervisor(c, addr, b, undriven); CopiesAgree(c') && LegalValues(c')
  {
    if addr == SSTATUS {
      SstatusWriteKeeps(c.status, StatusOf(b));
    } else if addr == STVEC {
      TvecWritesKeep(c.tvec, TvecOf(b));
    } else if addr == SIE {
      SieWriteKeeps(c.ie, IrqsOf(b));
      UserBitsWriteKeeps(c.ip, undriven);
    } else if addr == SIP {
      SipWriteKeeps(c.ip, IrqsOf(b));
    }
  }

  lemma UserWritesKeep(c: Csrs, addr: int, b: Bits32)
    requires CopiesAgree(c) && LegalValues(c)
    ensures CopiesAgree(WriteUser(c, addr, b)) && LegalValues(WriteUser(c, addr, b))
  {
    if addr == USTATUS {
      UstatusWriteKeeps(c.status, StatusOf(b));
    } else if addr == UIE {
      UserBitsWriteKeeps(c.ie, IrqsOf(b));
    } else if addr == UTVEC {
      TvecWritesKeep(c.tvec, TvecOf(b));
    } else if addr == UIP {
      UipWriteKeeps(c.ip, IrqsOf(b));
    }
  }

  lemma TrapKeeps(c: Csrs, to: Level, cause: Cause, pc: Bits32)
    requires CopiesAgree(c) && LegalValues(c)
    ensures CopiesAgree(TrapTo(c, to, cause, pc)) && LegalValues(TrapTo(c, to, cause, pc))
  {
  }

  lemma ReturnsKeep(r: Regs<Status>)
    requires StatusAgree(r) && StatusLegal(r)
    ensures StatusAgree(StatusAfterMret(r)) && StatusLegal(StatusAfterMret(r))
    ensures StatusAgree(StatusAfterSret(r)) && StatusLegal(StatusAfterSret(r))
    ensures StatusAgree(StatusAfterUret(r)) && StatusLegal(StatusAfterUret(r))
  {
  }

  lemma StepKeeps(c: Csrs, e: Event)
    requires CopiesAgree(c) && LegalValues(c)
    ensures CopiesAgree(Step(c, e)) && LegalValues(Step(c, e))
  {
    match e
    case CsrWrite(addr, data, undriven) =>
      if addr >= 0x300 {
        MachineWritesKeep(c, addr, data);
      } else if addr >= 0x100 {
        SupervisorWritesKeep(c, addr, data, undriven);
      } else {
        UserWritesKeep(c, addr, data);
      }
    case Trap(to, cause, pc) => TrapKeeps(c, to, cause, pc);
    case _ => ReturnsKeep(c.status);
  }

  /** Every trap has a vector, and every return leaves MPRV clear. */
  lemma TrapsAndReturns(c: Csrs, e: Event)
    requires LegalValues(c)
    ensures e.Trap? ==> Vector(TvecFor(c, e.to), e.cause).At?
    ensures e.DoMret? || e.DoSret? || e.DoUret? ==> !Step(c, e).status.m.mprv
  {
  }

  // ---- runs ----

  function Run(c: Csrs, es: seq<Event>): Csrs
    decreases |es|
  {
    if es == [] then c else Run(Step(c, es[0]), es[1..])
  }

  /** The registers after reset. */
  ghost predicate Reset(c: Csrs) {
    var zero := Status(false, false, false, false, false, false, USER, false, false, false, false, false, false, false);
    var none := Irqs(false, false, false, false, false, false, false, false, false);
    && c.priv == MACHINE && c.status == Regs(zero.(mpp := MACHINE), zero, zero)
    && c.ie == Regs(none, none, none) && c.ip == Regs(none, none, none)
    && c.tvec.m.mode == 0 && c.tvec.s.mode == 0 && c.tvec.u.mode == 0
    && (forall k | 0 <= k < 32 :: !c.medeleg[k] && !c.mideleg[k])
  }

  lemma {:induction false} RunKeeps(c: Csrs, es: seq<Event>)
    requires CopiesAgree(c) && LegalValues(c)
    ensures CopiesAgree(Run(c, es)) && LegalValues(Run(c, es))
    decreases |es|
  {
    if es != [] {
      StepKeeps(c, es[0]);
      RunKeeps(Step(c, es[0]), es[1..]);
    }
  }

  /** From reset, after any sequence of CSR writes, traps and returns, the copies agree and no
      field holds a reserved value. */
  lemma EveryRunConsistent(c: Csrs, es: seq<Event>)
    requires Reset(c)
    ensures CopiesAgree(Run(c, es)) && LegalValues(Run(c, es))
  {
    RunKeeps(c, es);
  }

  // ---- the trap stack ----

  /** A trap to M and the mret that ends its handler. */
  function MachineTrip(c: Csrs, cause: Cause, pc: Bits32): Csrs { Mret(TrapTo(c, MACHINE, cause, pc)) }

  /** What an M-trap and its mret leave as it was: the level, the enable bits, the S-level trap
      state; and the return address is the trapped PC with its low two bits cleared. */
  predicate Restored(before: Csrs, after: Csrs) {
    && after.priv == before.priv && after.status.m.mie == before.status.m.mie
    && after.status.m.(mie := false, mpie := false, mpp := USER, mprv := false)
       == before.status.m.(mie := false, mpie := false, mpp := USER, mprv := false)
    && after.status.s.(mprv := false) == before.status.s.(mprv := false)
    && after.epc.s == before.epc.s && after.tvec == before.tvec && after.cause.s == before.cause.s
  }

  lemma MachineTripRestores(c: Csrs, cause: Cause, pc: Bits32)
    ensures Restored(c, MachineTrip(c, cause, pc))
    ensures Aligned(TrapTo(c, MACHINE, cause, pc).epc.m) == Aligned(pc)
    ensures Possible(TrapTo(c, MACHINE, cause, pc), DoMret)
  {
  }

  datatype Trip = Trip(cause: Cause, pc: Bits32)

  /** Any number of M-trap and mret pairs, one after the other. */
  function Trips(c: Csrs, ts: seq<Trip>): Csrs
    decreases |ts|
  {
    if ts == [] then c else Trips(MachineTrip(c, ts[0].cause, ts[0].pc), ts[1..])
  }

  lemma {:induction false} TripsRestore(c: Csrs, ts: seq<Trip>)
    ensures Restored(c, Trips(c, ts))
    decreases |ts|
  {
    if ts != [] {
      MachineTripRestores(c, ts[0].cause, ts[0].pc);
      TripsRestore(MachineTrip(c, ts[0].cause, ts[0].pc), ts[1..]);
    }
  }

  /** A trap to S, any number of M-traps with their mrets, then sret: sie is restored, sret goes
      to the trapped PC with its low two bits cleared, and the level is restored exactly when it
      was U or S, since one bit cannot record M. */
  lemma SupervisorTripRestores(c: Csrs, cause: Cause, pc: Bits32, ts: seq<Trip>)
    requires CopiesAgree(c) && c.priv != HYPERVISOR
    ensures var h := Trips(TrapTo(c, SUPERVISOR, cause, pc), ts);
            var e := Sret(h);
            && (Possible(h, DoSret) <==> !c.status.m.tsr)
            && h.priv == SUPERVISOR && Aligned(h.epc.s) == Aligned(pc)
            && e.status.m.sie == c.status.m.sie && e.status.s.sie == c.status.s.sie && e.status.m.mie == c.status.m.mie
            && (e.priv == c.priv <==> c.priv != MACHINE)
  {
    TripsRestore(TrapTo(c, SUPERVISOR, cause, pc), ts);
  }

  // ---- what S mode reads ----

  /** The bits section 4.1.1 of the RISC-V Privileged ISA 1.12 gives sstatus and this core has. */
  predicate SupervisorView(k: nat) { k in {1, 5, 8, 18, 19} }

  /** In every run from reset, what S mode reads in those bits of sstatus is what M mode reads in
      mstatus. */
  lemma SupervisorViewIsRestriction(c: Csrs, es: seq<Event>, k: nat)
    requires Reset(c) && SupervisorView(k)
    ensures StatusBit(Run(c, es).status.s, k) == StatusBit(Run(c, es).status.m, k)
  {
    EveryRunConsistent(c, es);
  }
}

/** The registers as the clocked object they are: each event updates them in place as Csr.Step says. */
module CsrUnit {
  import opened Csr

  class Unit {
    var priv: Level
    var status: Regs<Status>
    var ie: Regs<Irqs>
    var ip: Regs<Irqs>
    var tvec: Regs<Tvec>
    var epc: Regs<Bits32>
    var cause: Regs<Cause>
    var medeleg: Bits32
    var mideleg: Bits32

    ghost function State(): Csrs
      reads this
    {
      Csrs(priv, status, ie, ip, tvec, epc, cause, medeleg, mideleg)
    }

    constructor ()
      ensures priv == MACHINE && status.m.mpp == MACHINE && !status.m.mie && !status.m.mprv
    {
      var zero := Status(false, false, false, false, false, false, USER, false, false, false, false, false, false, false);
      var none := Irqs(false, false, false, false, false, false, false, false, false);
      var word: Bits32 := seq(32, _ => false);
      var direct := Tvec(seq(30, _ => false), 0);
      priv, status := MACHINE, Regs(zero.(mpp := MACHINE), zero, zero);
      ie, ip := Regs(none, none, none), Regs(none, none, none);
      tvec, epc, cause := Regs(direct, direct, direct), Regs(word, word, word), Regs(word, word, word);
      medeleg, mideleg := word, word;
    }

    /** csr_write. */
    method ClockWrite(addr: int, b: Bits32, undriven: Irqs)
      modifies this
      ensures State() == Write(old(State()), addr, b, undriven)
    {
      if addr >= 0x300 {
        if priv >= MACHINE { ClockMachine(addr, b); }
      } else if addr >= 0x100 {
        if priv >= SUPERVISOR { ClockSupervisor(addr, b, undriven); }
      } else {
        ClockUser(addr, b);
      }
    }

    method ClockMachine(addr: int, b: Bits32)
      modifies this
      ensures State() == WriteMachine(old(State()), addr, b)
    {
      var s, w := StatusOf(b), IrqsOf(b);
      if addr == MSTATUS {
        var mpp := if s.mpp != HYPERVISOR then s.mpp else status.m.mpp;
        status := Regs(s.(mpp := mpp), PutSup(status.s, s), PutUser(status.u, s));
      } else if addr == MEDELEG {
        medeleg := WriteMedeleg(medeleg, b);
      } else if addr == MIDELEG {
        mideleg := WriteMideleg(mideleg, b);
      } else if addr == MIE {
        ie := Regs(w, WithUser(WithSup(ie.s, w), w), WithUser(ie.u, w));
      } else if addr == MTVEC {
        tvec := tvec.(m := WriteTvec(tvec.m, TvecOf(b)));
      } else if addr == MEPC {
        epc := epc.(m := Aligned(b));
      } else if addr == MIP {
        ip := Regs(WithUser(WithSup(ip.m, w), w), WithUser(WithSup(ip.s, w), w), WithUser(ip.u, w));
      }
    }

    method ClockSupervisor(addr: int, b: Bits32, undriven: Irqs)
      modifies this
      ensures State() == WriteSupervisor(old(State()), addr, b, undriven)
    {
      var s, w := StatusOf(b), IrqsOf(b);
      if addr == SSTATUS {
        status := status.(m := PutSup(status.m, s), s := PutSup(status.s, s));
      } else if addr == STVEC {
        tvec := tvec.(s := WriteTvec(tvec.s, TvecOf(b)));
      } else if addr == SIE {
        ie := ie.(m := WithSup(ie.m, w), s := WithSup(ie.s, w));
        ip := Regs(WithUser(ip.m, undriven), WithUser(ip.s, undriven), WithUser(ip.u, undriven));
      } else if addr == SIP {
        ip := Regs(ip.m.(ss := w.ss, us := w.us), ip.s.(ss := w.ss, us := w.us), ip.u.(us := w.us));
      } else if addr == SEPC {
        epc := epc.(s := Aligned(b));
      }
    }

    method ClockUser(addr: int, b: Bits32)
      modifies this
      ensures State() == WriteUser(old(State()), addr, b)
    {
      var s, w := StatusOf(b), IrqsOf(b);
      if addr == USTATUS {
        status := Regs(PutUser(status.m, s), PutUser(status.s, s), PutUser(status.u, s));
      } else if addr == UIE {
        ie := Regs(WithUser(ie.m, w), WithUser(ie.s, w), WithUser(ie.u, w));
      } else if addr == UTVEC {
        tvec := tvec.(u := WriteTvec(tvec.u, TvecOf(b)));
      } else if addr == UEPC {
        epc := epc.(u := b);
      } else if addr == UCAUSE {
        cause := cause.(u := b);
      } else if addr == UIP {
        ip := Regs(ip.m.(us := w.us), ip.s.(us := w.us), ip.u.(us := w.us));
      }
    }

    /** The trap state; the jump target is driven to the pipeline. */
    method ClockTrap(to: Level, why: Cause, pc: Bits32) returns (target: Target)
      modifies this
      ensures State() == TrapTo(old(State()), to, why, pc)
      ensures target == Vector(TvecFor(old(State()), to), why)
    {
      target := Vector(if to == MACHINE then tvec.m else if to == SUPERVISOR then tvec.s else tvec.u, why);
      if to == MACHINE {
        status := status.(m := status.m.(mpie := status.m.mie, mie := false, mpp := priv));
        priv, cause, epc := MACHINE, cause.(m := why), epc.(m := pc);
      } else if to == SUPERVISOR {
        var spp, wasOn := priv % 2 == 1, status.s.sie;
        status := status.(m := EnterSup(status.m, spp, wasOn), s := EnterSup(status.s, spp, wasOn));
        priv, cause, epc := SUPERVISOR, cause.(s := why), epc.(s := pc);
      } else if to == USER {
        var wasOn := status.u.uie;
        status := Regs(EnterUser(status.m, wasOn), EnterUser(status.s, wasOn), EnterUser(status.u, wasOn));
        priv, cause, epc := USER, cause.(u := why), epc.(m := pc);
      }
    }

    method ClockMret() returns (target: Bits32)
      modifies this
      ensures State() == Mret(old(State())) && target == Aligned(old(epc.m))
    {
      var mprv := if status.m.mpp != MACHINE then false else status.s.mprv;
      target, priv := Aligned(epc.m), status.m.mpp;
      status := status.(m := status.m.(mie := status.m.mpie, mpie := true, mpp := MACHINE, mprv := mprv),
                        s := status.s.(mprv := mprv));
    }

    method ClockSret() returns (target: Bits32)
      modifies this
      ensures State() == Sret(old(State())) && target == Aligned(old(epc.s))
    {
      var mprv, wasOn := if status.m.mpp != MACHINE then false else status.s.mprv, status.s.spie;
      target, priv := Aligned(epc.s), if status.s.spp then SUPERVISOR else USER;
      status := status.(m := LeaveSup(status.m, wasOn, mprv), s := LeaveSup(status.s, wasOn, mprv));
    }

    method ClockUret() returns (target: Bits32)
      modifies this
      ensures State() == Uret(old(State())) && target == Aligned(old(epc.u))
    {
      var wasOn := status.u.upie;
      target, priv := Aligned(epc.u), USER;
      status := Regs(LeaveUser(status.m, wasOn).(mprv := false), LeaveUser(status.s, wasOn).(mprv := false),
                     LeaveUser(status.u, wasOn));
    }
  }
}

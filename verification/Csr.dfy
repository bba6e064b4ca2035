/** Control and status registers, traps and returns: each retired CSR write, trap or return is
    one step. A CSR value is its 32 bits, least significant first. */
module Csr {

  type Bits32 = b: seq<bool> | |b| == 32 witness seq<bool>(32, _ => false)
  type Bits30 = b: seq<bool> | |b| == 30 witness seq<bool>(30, _ => false)

  /** A privilege level as its two bits; HYPERVISOR is reserved. */
  type Level = l: int | 0 <= l < 4

  const USER: Level := 0
  const SUPERVISOR: Level := 1
  const HYPERVISOR: Level := 2
  const MACHINE: Level := 3

  /** mstatus_t, which is also sstatus_t and ustatus_t; read-only zero fields are left out. */
  datatype Status = Status(tsr: bool, tw: bool, tvm: bool, mxr: bool, sum: bool, mprv: bool, mpp: Level, spp: bool,
                           mpie: bool, spie: bool, upie: bool, mie: bool, sie: bool, uie: bool)

  function StatusOf(b: Bits32): Status {
    Status(b[22], b[21], b[20], b[19], b[18], b[17], (if b[12] then 2 else 0) + (if b[11] then 1 else 0), b[8],
           b[7], b[5], b[4], b[3], b[1], b[0])
  }

  /** mie_t and mip_t: external, timer and software bits for M, S and U. */
  datatype Irqs = Irqs(me: bool, se: bool, ue: bool, mt: bool, st: bool, ut: bool, ms: bool, ss: bool, us: bool)

  function IrqsOf(b: Bits32): Irqs {
    Irqs(b[11], b[9], b[8], b[7], b[5], b[4], b[3], b[1], b[0])
  }

  datatype Tvec = Tvec(base: Bits30, mode: Level)

  function TvecOf(b: Bits32): Tvec {
    Tvec(b[2..], (if b[1] then 2 else 0) + (if b[0] then 1 else 0))
  }

  /** A trap cause: bit 31 says interrupt, the low ten bits are the code. */
  type Cause = Bits32

  /** The machine, supervisor and user copies of a register. */
  datatype Regs<T> = Regs(m: T, s: T, u: T)

  datatype Csrs = Csrs(
    priv: Level,
    status: Regs<Status>,   // mstatus, sstatus, ustatus
    ie: Regs<Irqs>,         // mie, sie, uie
    ip: Regs<Irqs>,         // mip, sip, uip
    tvec: Regs<Tvec>,
    epc: Regs<Bits32>,
    cause: Regs<Cause>,
    medeleg: Bits32, mideleg: Bits32)

  // ---- csr_read ----

  /** Bit k of a status register. */
  predicate StatusBit(s: Status, k: nat) {
    || (k == 0 && s.uie) || (k == 1 && s.sie) || (k == 3 && s.mie)
    || (k == 4 && s.upie) || (k == 5 && s.spie) || (k == 7 && s.mpie)
    || (k == 8 && s.spp) || (k == 11 && (s.mpp == 1 || s.mpp == 3)) || (k == 12 && s.mpp >= 2)
    || (k == 17 && s.mprv) || (k == 18 && s.sum) || (k == 19 && s.mxr)
    || (k == 20 && s.tvm) || (k == 21 && s.tw) || (k == 22 && s.tsr)
  }

  /** Bit k of an interrupt register. */
  predicate IrqBit(i: Irqs, k: nat) {
    || (k == 0 && i.us) || (k == 1 && i.ss) || (k == 3 && i.ms)
    || (k == 4 && i.ut) || (k == 5 && i.st) || (k == 7 && i.mt)
    || (k == 8 && i.ue) || (k == 9 && i.se) || (k == 11 && i.me)
  }

  predicate TvecBit(t: Tvec, k: nat)
    requires k < 32
  {
    if k == 0 then t.mode == 1 || t.mode == 3 else if k == 1 then t.mode >= 2 else t.base[k - 2]
  }

  function StatusBits(s: Status): Bits32 { seq(32, k requires 0 <= k < 32 => StatusBit(s, k)) }
  function IrqBits(i: Irqs): Bits32 { seq(32, k requires 0 <= k < 32 => IrqBit(i, k)) }
  function TvecBits(t: Tvec): Bits32 { seq(32, k requires 0 <= k < 32 => TvecBit(t, k)) }

  /** A read of mip adds the pending wires, and a one at bit 10. */
  function WithWires(b: Bits32, wires: Irqs): Bits32 {
    seq(32, k requires 0 <= k < 32 => b[k] || IrqBit(wires, k) || k == 10)
  }

  datatype Reading = Reads(value: Bits32) | NotMapped | NotModelled

  function ReadMachine(c: Csrs, addr: int, wires: Irqs): Reading {
    if addr == MSTATUS then Reads(StatusBits(c.status.m))
    else if addr == MEDELEG then Reads(c.medeleg)
    else if addr == MIDELEG then Reads(c.mideleg)
    else if addr == MIE then Reads(IrqBits(c.ie.m))
    else if addr == MTVEC then Reads(TvecBits(c.tvec.m))
    else if addr == MEPC then Reads(c.epc.m)
    else if addr == MCAUSE then Reads(c.cause.m)
    else if addr == MIP then Reads(WithWires(IrqBits(c.ip.m), wires))
    else NotModelled
  }

  function ReadSupervisor(c: Csrs, addr: int): Reading {
    if addr == SSTATUS then Reads(StatusBits(c.status.s))
    else if addr == SIE then Reads(IrqBits(c.ie.s))
    else if addr == STVEC then Reads(TvecBits(c.tvec.s))
    else if addr == SEPC then Reads(c.epc.s)
    else if addr == SCAUSE then Reads(c.cause.s)
    else if addr == SIP then Reads(IrqBits(c.ip.s))
    else NotModelled
  }

  function ReadUser(c: Csrs, addr: int): Reading {
    if addr == USTATUS then Reads(StatusBits(c.status.u))
    else if addr == UIE then Reads(IrqBits(c.ie.u))
    else if addr == UTVEC then Reads(TvecBits(c.tvec.u))
    else if addr == UEPC then Reads(c.epc.u)
    else if addr == UCAUSE then Reads(c.cause.u)
    else if addr == UIP then Reads(IrqBits(c.ip.u))
    else NotModelled
  }

  /** The arms whose registers are modelled; below the level of a register its address is not mapped. */
  function Read(c: Csrs, addr: int, wires: Irqs): Reading {
    if 0x300 <= addr < 0x400 then if c.priv >= MACHINE then ReadMachine(c, addr, wires) else NotMapped
    else if 0x100 <= addr < 0x200 then if c.priv >= SUPERVISOR then ReadSupervisor(c, addr) else NotMapped
    else if 0 <= addr < 0x100 then ReadUser(c, addr)
    else NotModelled
  }

  // ---- csr_write ----

  const MSTATUS := 0x300
  const MEDELEG := 0x302
  const MIDELEG := 0x303
  const MIE := 0x304
  const MTVEC := 0x305
  const MEPC := 0x341
  const MCAUSE := 0x342
  const MIP := 0x344
  const SSTATUS := 0x100
  const SIE := 0x104
  const STVEC := 0x105
  const SEPC := 0x141
  const SCAUSE := 0x142
  const SIP := 0x144
  const USTATUS := 0x000
  const UIE := 0x004
  const UTVEC := 0x005
  const UEPC := 0x041
  const UCAUSE := 0x042
  const UIP := 0x044

  function WithSup(to: Irqs, w: Irqs): Irqs { to.(se := w.se, st := w.st, ss := w.ss) }
  function WithUser(to: Irqs, w: Irqs): Irqs { to.(ue := w.ue, ut := w.ut, us := w.us) }

  function WriteTvec(old_: Tvec, w: Tvec): Tvec {
    if w.mode < 2 then w else old_.(base := w.base)
  }

  /** {x[31:2], x[1:0] & ~ialign} with ialign all ones. */
  function Aligned(x: Bits32): Bits32 { [false, false] + x[2..] }

  /** The fields of a status register that the S view writes, and those the U view writes. */
  function PutSup(to: Status, w: Status): Status {
    to.(mxr := w.mxr, sum := w.sum, spp := w.spp, spie := w.spie, sie := w.sie)
  }

  function PutUser(to: Status, w: Status): Status { to.(uie := w.uie, upie := w.upie) }

  function WriteMstatus(r: Regs<Status>, w: Status): Regs<Status> {
    Regs(w.(mpp := if w.mpp != HYPERVISOR then w.mpp else r.m.mpp), PutSup(r.s, w), PutUser(r.u, w))
  }

  function WriteSstatus(r: Regs<Status>, w: Status): Regs<Status> {
    r.(m := PutSup(r.m, w), s := PutSup(r.s, w))
  }

  function WriteUstatus(r: Regs<Status>, w: Status): Regs<Status> {
    Regs(PutUser(r.m, w), PutUser(r.s, w), PutUser(r.u, w))
  }

  function WriteMie(r: Regs<Irqs>, w: Irqs): Regs<Irqs> {
    Regs(w, WithUser(WithSup(r.s, w), w), WithUser(r.u, w))
  }

  function WriteMip(r: Regs<Irqs>, w: Irqs): Regs<Irqs> {
    Regs(WithUser(WithSup(r.m, w), w), WithUser(WithSup(r.s, w), w), WithUser(r.u, w))
  }

  function WriteSie(r: Regs<Irqs>, w: Irqs): Regs<Irqs> {
    r.(m := WithSup(r.m, w), s := WithSup(r.s, w))
  }

  /** The user bits of an interrupt register, in all three copies. */
  function WriteUserBits(r: Regs<Irqs>, w: Irqs): Regs<Irqs> {
    Regs(WithUser(r.m, w), WithUser(r.s, w), WithUser(r.u, w))
  }

  function WriteSip(r: Regs<Irqs>, w: Irqs): Regs<Irqs> {
    Regs(r.m.(ss := w.ss, us := w.us), r.s.(ss := w.ss, us := w.us), r.u.(us := w.us))
  }

  function WriteUip(r: Regs<Irqs>, w: Irqs): Regs<Irqs> {
    Regs(r.m.(us := w.us), r.s.(us := w.us), r.u.(us := w.us))
  }

  /** medeleg: the ten causes that can be delegated. */
  function WriteMedeleg(old_: Bits32, b: Bits32): Bits32 {
    old_[8 := b[8]][9 := b[9]][5 := b[5]][13 := b[13]][7 := b[7]][15 := b[15]][3 := b[3]][0 := b[0]][1 := b[1]][12 := b[12]]
  }

  /** mideleg: the three supervisor interrupts. */
  function WriteMideleg(old_: Bits32, b: Bits32): Bits32 {
    old_[9 := b[9]][5 := b[5]][1 := b[1]]
  }

  function WriteMachine(c: Csrs, addr: int, b: Bits32): Csrs {
    if addr == MSTATUS then c.(status := WriteMstatus(c.status, StatusOf(b)))
    else if addr == MEDELEG then c.(medeleg := WriteMedeleg(c.medeleg, b))
    else if addr == MIDELEG then c.(mideleg := WriteMideleg(c.mideleg, b))
    else if addr == MIE then c.(ie := WriteMie(c.ie, IrqsOf(b)))
    else if addr == MTVEC then c.(tvec := c.tvec.(m := WriteTvec(c.tvec.m, TvecOf(b))))
    else if addr == MEPC then c.(epc := c.epc.(m := Aligned(b)))
    else if addr == MIP then c.(ip := WriteMip(c.ip, IrqsOf(b)))
    else c
  }

  /** Writing sie also copies a wire nothing drives into the user pending bits. */
  function WriteSupervisor(c: Csrs, addr: int, b: Bits32, undriven: Irqs): Csrs {
    if addr == SSTATUS then c.(status := WriteSstatus(c.status, StatusOf(b)))
    else if addr == STVEC then c.(tvec := c.tvec.(s := WriteTvec(c.tvec.s, TvecOf(b))))
    else if addr == SIE then c.(ie := WriteSie(c.ie, IrqsOf(b)), ip := WriteUserBits(c.ip, undriven))
    else if addr == SIP then c.(ip := WriteSip(c.ip, IrqsOf(b)))
    else if addr == SEPC then c.(epc := c.epc.(s := Aligned(b)))
    else c
  }

  function WriteUser(c: Csrs, addr: int, b: Bits32): Csrs {
    if addr == USTATUS then c.(status := WriteUstatus(c.status, StatusOf(b)))
    else if addr == UIE then c.(ie := WriteUserBits(c.ie, IrqsOf(b)))
    else if addr == UTVEC then c.(tvec := c.tvec.(u := WriteTvec(c.tvec.u, TvecOf(b))))
    else if addr == UEPC then c.(epc := c.epc.(u := b))
    else if addr == UCAUSE then c.(cause := c.cause.(u := b))
    else if addr == UIP then c.(ip := WriteUip(c.ip, IrqsOf(b)))
    else c
  }

  /** The arms whose registers are modelled; every other write leaves them alone. Machine
      registers start at 0x300, supervisor ones at 0x100. */
  function Write(c: Csrs, addr: int, b: Bits32, undriven: Irqs): Csrs {
    if addr >= 0x300 then if c.priv >= MACHINE then WriteMachine(c, addr, b) else c
    else if addr >= 0x100 then if c.priv >= SUPERVISOR then WriteSupervisor(c, addr, b, undriven) else c
    else WriteUser(c, addr, b)
  }

  // ---- traps and returns ----

  /** A status register as a trap to S (or U) leaves it, and as the return from it does. */
  function EnterSup(s: Status, spp: bool, sie: bool): Status { s.(spp := spp, spie := sie, sie := false) }
  function EnterUser(s: Status, uie: bool): Status { s.(upie := uie, uie := false) }
  function LeaveSup(s: Status, spie: bool, mprv: bool): Status { s.(sie := spie, spie := true, mprv := mprv) }
  function LeaveUser(s: Status, upie: bool): Status { s.(uie := upie, upie := true) }

  /** The status registers after a trap from level `from`. */
  function StatusIntoMachine(r: Regs<Status>, from: Level): Regs<Status> {
    r.(m := r.m.(mpie := r.m.mie, mie := false, mpp := from))
  }

  function StatusIntoSupervisor(r: Regs<Status>, from: Level): Regs<Status> {
    r.(m := EnterSup(r.m, from % 2 == 1, r.s.sie), s := EnterSup(r.s, from % 2 == 1, r.s.sie))
  }

  function StatusIntoUser(r: Regs<Status>): Regs<Status> {
    Regs(EnterUser(r.m, r.u.uie), EnterUser(r.s, r.u.uie), EnterUser(r.u, r.u.uie))
  }

  /** A trap to U stores its PC in mepc. */
  function TrapTo(c: Csrs, to: Level, cause: Cause, pc: Bits32): Csrs {
    if to == MACHINE then
      c.(priv := MACHINE, status := StatusIntoMachine(c.status, c.priv), cause := c.cause.(m := cause), epc := c.epc.(m := pc))
    else if to == SUPERVISOR then
      c.(priv := SUPERVISOR, status := StatusIntoSupervisor(c.status, c.priv),
         cause := c.cause.(s := cause), epc := c.epc.(s := pc))
    else if to == USER then
      c.(priv := USER, status := StatusIntoUser(c.status), cause := c.cause.(u := cause), epc := c.epc.(m := pc))
    else c
  }

  /** The number whose bits are `b`, least significant first. */
  function Number(b: seq<bool>): nat {
    if b == [] then 0 else (if b[0] then 1 else 0) + 2 * Number(b[1..])
  }

  datatype Target = Undriven | At(base: Bits30, plus: nat)

  /** Where a trap goes: the base, or the base plus four times the code of an interrupt. */
  function Vector(t: Tvec, cause: Cause): Target {
    if t.mode == 0 then At(t.base, 0)
    else if t.mode == 1 && !cause[31] then At(t.base, 0)
    else if t.mode == 1 then At(t.base, 4 * Number(cause[..10]))
    else Undriven
  }

  function TvecFor(c: Csrs, to: Level): Tvec {
    if to == MACHINE then c.tvec.m else if to == SUPERVISOR then c.tvec.s else c.tvec.u
  }

  function ReturnMprv(r: Regs<Status>): bool { if r.m.mpp != MACHINE then false else r.s.mprv }

  function StatusAfterMret(r: Regs<Status>): Regs<Status> {
    r.(m := r.m.(mie := r.m.mpie, mpie := true, mpp := MACHINE, mprv := ReturnMprv(r)), s := r.s.(mprv := ReturnMprv(r)))
  }

  function StatusAfterSret(r: Regs<Status>): Regs<Status> {
    r.(m := LeaveSup(r.m, r.s.spie, ReturnMprv(r)), s := LeaveSup(r.s, r.s.spie, ReturnMprv(r)))
  }

  function StatusAfterUret(r: Regs<Status>): Regs<Status> {
    Regs(LeaveUser(r.m, r.u.upie).(mprv := false), LeaveUser(r.s, r.u.upie).(mprv := false), LeaveUser(r.u, r.u.upie))
  }

  function Mret(c: Csrs): Csrs { c.(priv := c.status.m.mpp, status := StatusAfterMret(c.status)) }

  function Sret(c: Csrs): Csrs {
    c.(priv := if c.status.s.spp then SUPERVISOR else USER, status := StatusAfterSret(c.status))
  }

  function Uret(c: Csrs): Csrs { c.(priv := USER, status := StatusAfterUret(c.status)) }

  datatype Event =
    | CsrWrite(addr: int, data: Bits32, undriven: Irqs)
    | Trap(to: Level, cause: Cause, pc: Bits32)
    | DoMret
    | DoSret
    | DoUret

  /** Which returns are not illegal instructions. */
  predicate Possible(c: Csrs, e: Event) {
    match e
    case DoMret => c.priv == MACHINE
    case DoSret => !(c.priv == SUPERVISOR && c.status.m.tsr)
    case DoUret => c.priv == USER
    case _ => true
  }

  function Step(c: Csrs, e: Event): Csrs {
    match e
    case CsrWrite(addr, data, undriven) => Write(c, addr, data, undriven)
    case Trap(to, cause, pc) => TrapTo(c, to, cause, pc)
    case DoMret => Mret(c)
    case DoSret => Sret(c)
    case DoUret => Uret(c)
  }
}

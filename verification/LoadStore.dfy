/** The load/store unit: arbitration, translation, the page-table walker, the AMO sequence and
    the reservation. One `Next` per clock; the data cache is its memory port. */
module LoadStore {
  import opened Words
  import opened Memory
  import opened Paging
  import opened Translation
  import opened Ptw
  import Amo

  datatype WalkFor = ForFetch | ForLoad | ForStore

  datatype AmoPhase = AmoRead | AmoAlu | AmoWriteBack

  datatype Proc = Idle | FlushCache | CacheableRead | CacheableWrite | FlushTlb | PageTableWalk | AmoExe

  datatype Reservation = Reservation(valid: bool, addr: Addr)

  datatype Lsu = Lsu(
    proc: Proc,
    addr: Addr, size: Size, data: Lanes, sc: bool,                       // cacheable_*
    ptwFor: WalkFor, ptwVpn: Vpn,                                        // ptw_op, ptw_addr[31:12]
    amoSrc: Lanes, amoAddr: Addr, amoFn: Amo.Funct5, amoPhase: AmoPhase, // amo_op_*
    rs1: Lanes, amoResult: Lanes,
    walker: Walker, tlb: Tlb, reservation: Reservation)

  /** The memory operation the core asserts. Addresses are virtual. */
  datatype Cmd =
    | NoCmd
    | DoLoad(va: Addr, size: Size, lr: bool)
    | DoStore(va: Addr, size: Size, data: Lanes, sc: bool)
    | DoAmo(va: Addr, src: Lanes, fn: Amo.Funct5)

  datatype TlbRead = NoRead | ReadTlb(vpn: Vpn)

  datatype Csr = Csr(paging: bool, root: PpnValue, mode: Mode)

  datatype In = In(cacheFlush: bool, tlbFlush: bool, cmd: Cmd, tlbRead: TlbRead, csr: Csr)

  /** What the data cache answers in this clock. */
  datatype Port = Wait | Done(rdata: Lanes) | Fault | Flushed

  datatype Exception = NoFault | LoadPageFault | StorePageFault | TlbPageFault
                 | LoadAccessFault | StoreAccessFault | TlbAccessFault

  datatype Out = Out(ready: bool, loadData: Lanes, fault: Exception, pte: Walked, cacheFlushDone: bool, tlbFlushDone: bool)

  const QUIET := Out(false, ZERO_LANES, NoFault, NoLeaf, false, false)
  const ONE := Lanes(0, 0, 0, 1)

  // ---- the request to the data cache ----

  function RequestOf(l: Lsu): Request {
    if l.walker.proc.WWalk? then Load(l.walker.addr, WordSize)
    else
      match l.proc
      case CacheableRead => Load(l.addr, l.size)
      case CacheableWrite => Store(l.addr, l.size, l.data)
      case AmoExe =>
        (match l.amoPhase
         case AmoRead => Load(l.amoAddr, WordSize)
         case AmoAlu => NoRequest
         case AmoWriteBack => Store(l.amoAddr, WordSize, l.amoResult))
      case _ => NoRequest
  }

  predicate FlushesCache(l: Lsu, in_: In) {
    l.proc.FlushCache? || (l.proc.Idle? && in_.cacheFlush)
  }

  // ---- translation ----

  predicate Paged(csr: Csr) { csr.paging && !csr.mode.priv.Machine? }

  datatype Lookup = Miss | Refused | Physical(pa: Addr)

  function TranslateVa(t: Tlb, csr: Csr, va: Addr, kind: AccessKind): Lookup {
    if !Paged(csr) then Physical(va)
    else if !TlbHit(t, va.block.tag) then Miss
    else
      var e := Access(t, va.block.tag);
      if Allowed(kind, e.pte, csr.mode)
      then Physical(va.(block := BlockId(PhysTag(e, va.block.tag), va.block.index)))
      else Refused
  }

  function StartWalk(l: Lsu, why: WalkFor, vpn: Vpn): Lsu {
    l.(proc := PageTableWalk, ptwFor := why, ptwVpn := vpn)
  }

  // ---- the states ----

  function StepIdle(l: Lsu, in_: In): (Lsu, Out) {
    if in_.cacheFlush then (l.(proc := FlushCache), QUIET)
    else if in_.tlbFlush then (l.(proc := FlushTlb), QUIET)
    else
      match in_.cmd
      case DoLoad(va, size, lr) => StartLoad(l, in_.csr, va, size, lr)
      case DoStore(va, size, d, sc) => StartStore(l, in_.csr, va, size, d, sc)
      case DoAmo(va, src, fn) => StartAmo(l, in_.csr, va, src, fn)
      case NoCmd =>
        match in_.tlbRead
        case NoRead => (l, QUIET)
        case ReadTlb(vpn) =>
          if TlbHit(l.tlb, vpn) then
            var e := Access(l.tlb, vpn);
            (l, QUIET.(pte := Leaf(e.pte, e.level)))
          else (StartWalk(l, ForFetch, vpn), QUIET)
  }

  function StartLoad(l: Lsu, csr: Csr, va: Addr, size: Size, lr: bool): (Lsu, Out) {
    match TranslateVa(l.tlb, csr, va, LoadAccess)
    case Physical(pa) =>
      (l.(proc := CacheableRead, addr := pa, size := size,
          reservation := if lr then Reservation(true, pa) else l.reservation), QUIET)
    case Refused => (StartWalk(l, ForLoad, va.block.tag), QUIET.(fault := LoadPageFault))
    case Miss => (StartWalk(l, ForLoad, va.block.tag), QUIET)
  }

  predicate Reserved(l: Lsu, pa: Addr) { l.reservation.valid && l.reservation.addr == pa }

  function StartStore(l: Lsu, csr: Csr, va: Addr, size: Size, d: Lanes, sc: bool): (Lsu, Out) {
    match TranslateVa(l.tlb, csr, va, StoreAccess)
    case Physical(pa) =>
      var l' := if sc then l.(reservation := l.reservation.(valid := false)) else l;
      if sc && !Reserved(l, pa) then (l', QUIET.(ready := true, loadData := ONE))
      else (l'.(proc := CacheableWrite, addr := pa, size := size, data := d, sc := sc), QUIET)
    case Refused => (StartWalk(l, ForStore, va.block.tag), QUIET.(fault := StorePageFault))
    case Miss => (StartWalk(l, ForStore, va.block.tag), QUIET)
  }

  function StartAmo(l: Lsu, csr: Csr, va: Addr, src: Lanes, fn: Amo.Funct5): (Lsu, Out) {
    match TranslateVa(l.tlb, csr, va, StoreAccess)
    case Physical(pa) => (l.(proc := AmoExe, amoSrc := src, amoAddr := pa, amoFn := fn), QUIET)
    case Refused => (StartWalk(l, ForStore, va.block.tag), QUIET.(fault := StorePageFault))
    case Miss => (StartWalk(l, ForStore, va.block.tag), QUIET)
  }

  function StepRead(l: Lsu, port: Port): (Lsu, Out) {
    match port
    case Done(rdata) => (l.(proc := Idle), QUIET.(ready := true, loadData := rdata))
    case Fault => (l.(proc := Idle), QUIET.(fault := LoadAccessFault))
    case _ => (l, QUIET)
  }

  function StepWrite(l: Lsu, port: Port): (Lsu, Out) {
    match port
    case Done(_) => (l.(proc := Idle), QUIET.(ready := true, loadData := if l.sc then ZERO_LANES else ONE))
    case Fault => (l.(proc := Idle), QUIET.(fault := StoreAccessFault, loadData := ONE))
    case _ => (l, QUIET)
  }

  function StepAmo(l: Lsu, port: Port): (Lsu, Out) {
    match l.amoPhase
    case AmoRead =>
      (match port
       case Done(rdata) => (l.(rs1 := rdata, amoPhase := AmoAlu), QUIET)
       case Fault => (l.(proc := Idle), QUIET.(fault := StoreAccessFault))
       case _ => (l, QUIET))
    case AmoAlu =>
      (l.(amoResult := ToLanes(Amo.Exe(Value(l.rs1), Value(l.amoSrc), l.amoFn)), amoPhase := AmoWriteBack), QUIET)
    case AmoWriteBack =>
      (match port
       case Done(_) => (l.(proc := Idle, amoPhase := AmoRead), QUIET.(ready := true, loadData := l.rs1))
       case Fault => (l.(proc := Idle, amoPhase := AmoRead), QUIET.(fault := StoreAccessFault))
       case _ => (l, QUIET))
  }

  function WalkFault(why: WalkFor): Exception {
    match why case ForFetch => TlbPageFault case ForLoad => LoadPageFault case ForStore => StorePageFault
  }

  function WalkerNext(l: Lsu, csr: Csr, port: Port): Walker {
    WalkClock(l.walker, l.proc.PageTableWalk?, csr.root, l.ptwVpn, port.Done?, if port.Done? then port.rdata else ZERO_LANES)
  }

  function StepWalk(l: Lsu, port: Port): (Lsu, Out) {
    var w := l.walker;
    if w.proc.WCheck? && IsLeaf(w.pte, w.level) then
      (l.(proc := Idle, tlb := Refill(l.tlb, l.ptwVpn, w.pte, w.level)), QUIET)
    else if w.proc.WCheck? && !IsPointer(w.pte, w.level) then
      (l.(proc := Idle), QUIET.(fault := WalkFault(l.ptwFor)))
    else if w.proc.WWalk? && port.Fault? then
      (l.(proc := Idle), QUIET.(fault := if l.ptwFor.ForFetch? then TlbAccessFault else LoadAccessFault))
    else (l, QUIET)
  }

  /** One clock without the replacement pointer. A cache fault with no state to take it, which a
      walker left running can cause, is a load access fault. */
  function Act(l: Lsu, in_: In, port: Port): (Lsu, Out) {
    match l.proc
    case Idle =>
      var (l', out) := StepIdle(l, in_);
      (l', if port.Fault? then out.(fault := LoadAccessFault) else out)
    case FlushCache => if port.Flushed? then (l.(proc := Idle), QUIET.(cacheFlushDone := true)) else (l, QUIET)
    case FlushTlb => (l.(proc := Idle, tlb := Flush(l.tlb)), QUIET.(tlbFlushDone := true))
    case CacheableRead => StepRead(l, port)
    case CacheableWrite => StepWrite(l, port)
    case PageTableWalk => StepWalk(l, port)
    case AmoExe => StepAmo(l, port)
  }

  function Next(l: Lsu, in_: In, port: Port): (Lsu, Out) {
    var (l', out) := Act(l, in_, port);
    (l'.(tlb := Tick(l'.tlb), walker := WalkerNext(l, in_.csr, port)), out)
  }
}

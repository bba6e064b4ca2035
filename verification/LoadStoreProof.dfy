/** The load/store unit with its real data cache: every operation it completes is one
    indivisible step on flat memory, and its TLB agrees with the page tables. */
module LoadStoreProof {
  import opened Words
  import opened Memory
  import opened Paging
  import opened Translation
  import opened Ptw
  import opened LoadStore
  import Amo
  import DC = DataCache
  import DP = DataCacheProof

  /** The last translated LR or SC. */
  datatype LrSc = Never | Lr(pa: Addr) | Sc

  /** The command in progress, as the core asserted it, and the physical address it translated to. */
  datatype Job = NoJob | Doing(cmd: Cmd, pa: Addr)

  datatype Sys = Sys(l: Lsu, d: DP.Sys, last: LrSc, job: Job)

  /** The core's inputs, and memory's two free choices. */
  datatype SysIn = SysIn(core: In, memReady: bool, dw: DC.DoubleWrite)

  function DataIn(s: Sys, in_: SysIn): DC.In {
    DC.In(RequestOf(s.l), FlushesCache(s.l, in_.core), in_.memReady, in_.dw)
  }

  function PortOf(out: DC.Out): Port {
    if out.ready then Done(out.rdata) else if out.fault then Fault else if out.flushDone then Flushed else Wait
  }

  ghost function PortAt(s: Sys, pma: DC.Pmas, in_: SysIn): Port {
    PortOf(DP.Step(s.d, pma, DataIn(s, in_)).1)
  }

  predicate Serves(l: Lsu, in_: In) { l.proc.Idle? && !in_.cacheFlush && !in_.tlbFlush }

  /** The command, if any, that the unit takes in this clock. */
  function Accepted(l: Lsu, in_: In): Job {
    if !Serves(l, in_) then NoJob
    else
      match in_.cmd
      case NoCmd => NoJob
      case DoLoad(va, _, _) =>
        (match TranslateVa(l.tlb, in_.csr, va, LoadAccess) case Physical(pa) => Doing(in_.cmd, pa) case _ => NoJob)
      case DoStore(va, _, _, _) =>
        (match TranslateVa(l.tlb, in_.csr, va, StoreAccess) case Physical(pa) => Doing(in_.cmd, pa) case _ => NoJob)
      case DoAmo(va, _, _) =>
        (match TranslateVa(l.tlb, in_.csr, va, StoreAccess) case Physical(pa) => Doing(in_.cmd, pa) case _ => NoJob)
  }

  function Current(l: Lsu, job: Job, in_: In): Job { if job.Doing? then job else Accepted(l, in_) }

  /** A command is over when it is answered or faults. */
  function JobAfter(current: Job, out: Out): Job { if out.ready || !out.fault.NoFault? then NoJob else current }

  /** The LR or SC, if any, that translates in this clock. */
  function LrScOf(l: Lsu, in_: In): seq<LrSc> {
    match Accepted(l, in_)
    case Doing(DoLoad(_, _, true), pa) => [Lr(pa)]
    case Doing(DoStore(_, _, _, true), _) => [Sc]
    case _ => []
  }

  function LastOf(l: Lsu, last: LrSc, in_: In): LrSc {
    if LrScOf(l, in_) == [] then last else LrScOf(l, in_)[0]
  }

  ghost function Step(s: Sys, pma: DC.Pmas, in_: SysIn): (Sys, Out) {
    var (l', out) := Next(s.l, in_.core, PortAt(s, pma, in_));
    (Sys(l', DP.Step(s.d, pma, DataIn(s, in_)).0, LastOf(s.l, s.last, in_.core),
         JobAfter(Current(s.l, s.job, in_.core), out)), out)
  }

  predicate AlignedCmd(cmd: Cmd) {
    match cmd
    case DoLoad(va, size, _) => Aligned(va, size)
    case DoStore(va, size, _, _) => Aligned(va, size)
    case DoAmo(va, _, _) => va.byte == 0
    case NoCmd => true
  }

  /** What the core and the platform promise: aligned accesses, page tables in existing memory,
      and at a flush the safe outcomes of the double write. */
  predicate Legal(s: Sys, pma: DC.Pmas, in_: SysIn) {
    && AlignedCmd(in_.core.cmd)
    && (s.l.walker.proc.WWalk? ==> !pma(s.l.walker.addr.block).Empty?)
    && (s.d.c.proc.WriteBack? && s.d.c.flushing ==> !in_.dw.TurnsInvalid?)
  }

  predicate CacheFlushing(c: DC.Cache) { c.proc.FlushCache? || (c.proc.WriteBack? && c.flushing) }

  /** One master at a time, holding its request until the cache answers. */
  predicate Discipline(l: Lsu, d: DP.Sys) {
    && AlignedRequest(RequestOf(l))
    && (!l.walker.proc.WIdle? ==> l.proc.PageTableWalk? && l.walker.level <= 1)
    && (if l.proc.AmoExe? then l.amoAddr.byte == 0 else l.amoPhase.AmoRead?)
    && (!d.pend.NoRequest? ==> RequestOf(l) == d.pend)
    && (l.proc.FlushCache? <==> CacheFlushing(d.c))
    && (RequestOf(l).NoRequest? && !l.proc.FlushCache? ==> d.c.proc.Idle?)
  }

  /** Between an AMO's read and its write the old word is still in memory. */
  ghost predicate AmoHolds(l: Lsu, logical: Blocks) {
    l.proc.AmoExe? ==>
      && (!l.amoPhase.AmoRead? ==> l.rs1 == BlockLoad(logical, l.amoAddr, WordSize))
      && (l.amoPhase.AmoWriteBack? ==> l.amoResult == ToLanes(Amo.Exe(Value(l.rs1), Value(l.amoSrc), l.amoFn)))
  }

  predicate ReservationOk(l: Lsu, last: LrSc) {
    && (l.reservation.valid <==> last.Lr?)
    && (last.Lr? ==> l.reservation.addr == last.pa)
  }

  /** What the unit has latched is the command in progress, at its physical address. */
  predicate JobOk(l: Lsu, job: Job) {
    match l.proc
    case CacheableRead => job.Doing? && job.cmd.DoLoad? && job.cmd.size == l.size && job.pa == l.addr
    case CacheableWrite =>
      job.Doing? && job.cmd.DoStore? && job.cmd.size == l.size && job.pa == l.addr
      && job.cmd.data == l.data && job.cmd.sc == l.sc
    case AmoExe => job.Doing? && job.cmd.DoAmo? && job.pa == l.amoAddr && job.cmd.src == l.amoSrc && job.cmd.fn == l.amoFn
    case _ => job.NoJob?
  }

  ghost predicate Inv(s: Sys, logical: Blocks, pma: DC.Pmas) {
    && DP.Inv(s.d, logical, pma)
    && Discipline(s.l, s.d)
    && AmoHolds(s.l, logical)
    && ReservationOk(s.l, s.last)
    && JobOk(s.l, s.job)
  }

  // ---- completed operations ----

  /** An answer to the core: the command it had asserted, where it went, and what was returned. */
  datatype Event = Nothing | Completed(cmd: Cmd, pa: Addr, reply: Lanes)

  function EventOf(current: Job, out: Out): Event {
    if out.ready && current.Doing? then Completed(current.cmd, current.pa, out.loadData) else Nothing
  }

  /** The word an AMO leaves, given the word it returns. */
  function Swapped(fn: Amo.Funct5, old_: Lanes, src: Lanes): Lanes {
    ToLanes(Amo.Exe(Value(old_), Value(src), fn))
  }

  /** A store-conditional that answers 1 has failed. */
  predicate Writes(cmd: Cmd, reply: Lanes) { cmd.DoStore? && !(cmd.sc && reply == ONE) }

  /** One indivisible step on the logical memory, of the command that was asserted. */
  ghost predicate Atomic(before: Blocks, e: Event, after: Blocks) {
    match e
    case Completed(DoLoad(_, size, _), pa, reply) => reply == BlockLoad(before, pa, size) && after == before
    case Completed(DoStore(va, size, data, sc), pa, reply) =>
      && after == (if Writes(e.cmd, reply) then BlockStore(before, pa, size, data) else before)
      && (sc ==> reply == ZERO_LANES || reply == ONE)
    case Completed(DoAmo(_, src, fn), pa, reply) =>
      && reply == BlockLoad(before, pa, WordSize)
      && Amo.Means(fn, Value(reply), Value(src), Value(Swapped(fn, reply, src)))
      && after == BlockStore(before, pa, WordSize, Swapped(fn, reply, src))
    case _ => after == before
  }

  ghost function After(s: Sys, logical: Blocks, pma: DC.Pmas, in_: SysIn): Blocks {
    DP.After(logical, s.d.pend, DP.Step(s.d, pma, DataIn(s, in_)).1)
  }

  // ---- what one clock of the cache means to its master ----

  predicate CacheClock(d: DP.Sys, in_: DC.In, d': DP.Sys, out: DC.Out) {
    && (out.ready ==> !d.pend.NoRequest? && !CacheFlushing(d.c) && d'.c.proc.Idle? && d'.pend.NoRequest?)
    && (out.fault ==> d.c.proc.Idle? && d'.c == d.c && d'.pend.NoRequest? && !out.ready)
    && (out.flushDone ==> CacheFlushing(d.c) && d'.c.proc.Idle? && d'.pend.NoRequest? && !out.ready && !out.fault)
    && (!out.ready && !out.fault && !out.flushDone ==>
         && (CacheFlushing(d'.c) <==> CacheFlushing(d.c) || (d.c.proc.Idle? && in_.flush))
         && (d.c.proc.Idle? && !in_.flush && in_.req.NoRequest? ==> d'.c.proc.Idle?)
         && (!d'.pend.NoRequest? ==> d'.pend == in_.req))
  }

  lemma CacheClockHolds(d: DP.Sys, logical: Blocks, pma: DC.Pmas, in_: DC.In)
    requires DP.Inv(d, logical, pma) && DP.Legal(d, in_)
    ensures var (d', out) := DP.Step(d, pma, in_); CacheClock(d, in_, d', out)
  {
  }

  lemma CacheFaultIsEmpty(d: DP.Sys, pma: DC.Pmas, in_: DC.In)
    ensures DP.Step(d, pma, in_).1.fault ==> !in_.req.NoRequest? && pma(in_.req.addr.block).Empty?
  {
  }

  lemma LegalData(s: Sys, logical: Blocks, pma: DC.Pmas, in_: SysIn)
    requires Inv(s, logical, pma) && Legal(s, pma, in_)
    ensures DP.Legal(s.d, DataIn(s, in_))
  {
  }

  /** One clock of the unit's cache, seen from the unit. */
  predicate CacheSide(l: Lsu, in_: In, d: DP.Sys, din: DC.In, d': DP.Sys, out: DC.Out) {
    && Discipline(l, d) && CacheClock(d, din, d', out) && AlignedCmd(in_.cmd)
    && din.req == RequestOf(l) && din.flush == FlushesCache(l, in_)
    && (out.fault ==> !l.walker.proc.WWalk? && !RequestOf(l).NoRequest?)
  }

  /** What the idle state can start. */
  predicate Started(l: Lsu, in_: In, l': Lsu) {
    && AlignedRequest(RequestOf(l')) && l'.walker == l.walker && l'.amoPhase.AmoRead?
    && (l'.proc.AmoExe? ==> l'.amoAddr.byte == 0)
    && (l'.proc.FlushCache? <==> in_.cacheFlush)
  }

  lemma IdleStarts(l: Lsu, in_: In)
    requires AlignedCmd(in_.cmd) && l.proc.Idle? && l.amoPhase.AmoRead? && l.walker.proc.WIdle?
    ensures Started(l, in_, StepIdle(l, in_).0)
  {
  }

  lemma DisciplineStarted(l: Lsu, l': Lsu, in_: In, d: DP.Sys, din: DC.In, d': DP.Sys, out: DC.Out)
    requires CacheSide(l, in_, d, din, d', out) && l.proc.Idle? && Started(l, in_, l')
    ensures Discipline(l', d')
  {
  }

  lemma DisciplineIdle(l: Lsu, in_: In, d: DP.Sys, din: DC.In, d': DP.Sys, out: DC.Out)
    requires CacheSide(l, in_, d, din, d', out) && l.proc.Idle?
    ensures Discipline(Next(l, in_, PortOf(out)).0, d')
  {
    IdleStarts(l, in_);
    DisciplineStarted(l, StepIdle(l, in_).0.(tlb := Next(l, in_, PortOf(out)).0.tlb), in_, d, din, d', out);
  }

  lemma DisciplineWalk(l: Lsu, in_: In, d: DP.Sys, din: DC.In, d': DP.Sys, out: DC.Out)
    requires CacheSide(l, in_, d, din, d', out) && l.proc.PageTableWalk?
    ensures Discipline(Next(l, in_, PortOf(out)).0, d')
  {
  }

  lemma DisciplineAmo(l: Lsu, in_: In, d: DP.Sys, din: DC.In, d': DP.Sys, out: DC.Out)
    requires CacheSide(l, in_, d, din, d', out) && l.proc.AmoExe?
    ensures Discipline(Next(l, in_, PortOf(out)).0, d')
  {
  }

  lemma DisciplineRest(l: Lsu, in_: In, d: DP.Sys, din: DC.In, d': DP.Sys, out: DC.Out)
    requires CacheSide(l, in_, d, din, d', out)
    requires !l.proc.Idle? && !l.proc.PageTableWalk? && !l.proc.AmoExe?
    ensures Discipline(Next(l, in_, PortOf(out)).0, d')
  {
  }

  lemma DisciplineStep(s: Sys, logical: Blocks, pma: DC.Pmas, in_: SysIn)
    requires Inv(s, logical, pma) && Legal(s, pma, in_)
    ensures var s' := Step(s, pma, in_).0; Discipline(s'.l, s'.d)
  {
    var din := DataIn(s, in_);
    var (d', out) := DP.Step(s.d, pma, din);
    LegalData(s, logical, pma, in_);
    CacheClockHolds(s.d, logical, pma, din);
    CacheFaultIsEmpty(s.d, pma, din);
    if s.l.proc.Idle? { DisciplineIdle(s.l, in_.core, s.d, din, d', out); }
    else if s.l.proc.PageTableWalk? { DisciplineWalk(s.l, in_.core, s.d, din, d', out); }
    else if s.l.proc.AmoExe? { DisciplineAmo(s.l, in_.core, s.d, din, d', out); }
    else { DisciplineRest(s.l, in_.core, s.d, din, d', out); }
  }

  // ---- atomicity ----

  /** The answer of the cache in terms of the logical memory, before and after the clock. */
  ghost predicate PortMeans(pend: Request, out: DC.Out, before: Blocks, after: Blocks) {
    && (out.ready && pend.Load? ==> out.rdata == BlockLoad(before, pend.addr, pend.size))
    && after == (if out.ready && pend.Store? then BlockStore(before, pend.addr, pend.size, pend.data) else before)
  }

  lemma AmoFrom(l: Lsu, in_: In, d: DP.Sys, out: DC.Out, before: Blocks, after: Blocks)
    requires Discipline(l, d) && PortMeans(d.pend, out, before, after) && (out.ready ==> !d.pend.NoRequest?)
    requires AmoHolds(l, before)
    ensures AmoHolds(Next(l, in_, PortOf(out)).0, after)
  {
  }

  lemma AmoMeans(old_: Lanes, src: Lanes, fn: Amo.Funct5)
    ensures Amo.Means(fn, Value(old_), Value(src), Value(Swapped(fn, old_, src)))
  {
    Amo.ExeMeans(Value(old_), Value(src), fn);
    ValueOfLanes(Amo.Exe(Value(old_), Value(src), fn));
  }

  /** From the unit's side of the port: the answered command was done in this clock. */
  lemma AtomicFrom(l: Lsu, job: Job, in_: In, d: DP.Sys, out: DC.Out, before: Blocks, after: Blocks)
    requires Discipline(l, d) && PortMeans(d.pend, out, before, after) && (out.ready ==> !d.pend.NoRequest?)
    requires AmoHolds(l, before) && JobOk(l, job)
    ensures var answer := Next(l, in_, PortOf(out)).1;
            && Atomic(before, EventOf(Current(l, job, in_), answer), after)
            && (answer.ready ==> Current(l, job, in_).Doing?)
  {
    if l.proc.AmoExe? { AmoMeans(l.rs1, l.amoSrc, l.amoFn); }
  }

  /** Every clock either completes, as one step on logical memory, the command the core asserted,
      at the address it translated to, or leaves logical memory alone; and nothing else is answered. */
  lemma EveryStepAtomic(s: Sys, logical: Blocks, pma: DC.Pmas, in_: SysIn)
    requires Inv(s, logical, pma) && Legal(s, pma, in_)
    ensures var current, out := Current(s.l, s.job, in_.core), Step(s, pma, in_).1;
            && Atomic(logical, EventOf(current, out), After(s, logical, pma, in_))
            && (out.ready ==> current.Doing?)
  {
    LegalData(s, logical, pma, in_);
    var out := DP.Step(s.d, pma, DataIn(s, in_)).1;
    DP.StepRefines(s.d, logical, pma, DataIn(s, in_));
    AtomicFrom(s.l, s.job, in_.core, s.d, out, logical, After(s, logical, pma, in_));
  }

  lemma ReservationStep(l: Lsu, last: LrSc, in_: In, port: Port)
    requires ReservationOk(l, last)
    ensures ReservationOk(Next(l, in_, port).0, LastOf(l, last, in_))
  {
  }

  /** A port with nothing asked of it is silent while the unit is idle. */
  lemma JobStep(l: Lsu, job: Job, in_: In, port: Port)
    requires JobOk(l, job) && (l.proc.Idle? ==> !port.Fault?)
    ensures var (l', out) := Next(l, in_, port); JobOk(l', JobAfter(Current(l, job, in_), out))
  {
  }

  lemma InvStep(s: Sys, logical: Blocks, pma: DC.Pmas, in_: SysIn)
    requires Inv(s, logical, pma) && Legal(s, pma, in_)
    ensures Inv(Step(s, pma, in_).0, After(s, logical, pma, in_), pma)
  {
    LegalData(s, logical, pma, in_);
    var out := DP.Step(s.d, pma, DataIn(s, in_)).1;
    DP.StepRefines(s.d, logical, pma, DataIn(s, in_));
    CacheFaultIsEmpty(s.d, pma, DataIn(s, in_));
    DisciplineStep(s, logical, pma, in_);
    AmoFrom(s.l, in_.core, s.d, out, logical, After(s, logical, pma, in_));
    ReservationStep(s.l, s.last, in_.core, PortOf(out));
    JobStep(s.l, s.job, in_.core, PortOf(out));
  }
}

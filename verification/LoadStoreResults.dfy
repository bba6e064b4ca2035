/** Whole runs of the load/store unit: flat memory, LR/SC, and translation against section
    4.3.2 of the RISC-V Privileged ISA 1.12. */
module LoadStoreResults {
  import opened Words
  import opened Memory
  import opened Paging
  import opened Translation
  import opened Ptw
  import opened LoadStore
  import opened LoadStoreProof
  import Amo
  import DC = DataCache
  import DP = DataCacheProof
  import DR = DataCacheResults

  ghost predicate LegalRun(s: Sys, pma: DC.Pmas, ins: seq<SysIn>)
    decreases |ins|
  {
    ins == [] || (Legal(s, pma, ins[0]) && LegalRun(Step(s, pma, ins[0]).0, pma, ins[1..]))
  }

  ghost function RunTo(s: Sys, pma: DC.Pmas, ins: seq<SysIn>): Sys
    decreases |ins|
  {
    if ins == [] then s else RunTo(Step(s, pma, ins[0]).0, pma, ins[1..])
  }

  /** The logical memory after a run. */
  ghost function LogicalTo(s: Sys, logical: Blocks, pma: DC.Pmas, ins: seq<SysIn>): Blocks
    decreases |ins|
  {
    if ins == [] then logical else LogicalTo(Step(s, pma, ins[0]).0, After(s, logical, pma, ins[0]), pma, ins[1..])
  }

  ghost predicate PowerOn(s: Sys) {
    && DR.PowerOn(s.d) && s.l.proc.Idle? && s.l.walker.proc.WIdle? && s.l.amoPhase.AmoRead?
    && !s.l.reservation.valid && s.last.Never? && s.job.NoJob?
    && forall k | 0 <= k < |s.l.tlb.entries| :: !s.l.tlb.entries[k].valid
  }

  lemma PowerOnInv(s: Sys, pma: DC.Pmas)
    requires PowerOn(s)
    ensures Inv(s, s.d.mem, pma)
  {
    DR.PowerOnInv(s.d, pma);
  }

  // ---- every run is a sequence of atomic operations on flat byte memory ----

  ghost function EventAt(s: Sys, pma: DC.Pmas, in_: SysIn): Event {
    EventOf(Current(s.l, s.job, in_.core), Step(s, pma, in_).1)
  }

  ghost function Trace(s: Sys, pma: DC.Pmas, ins: seq<SysIn>): seq<Event>
    decreases |ins|
  {
    if ins == [] then []
    else [EventAt(s, pma, ins[0])] + Trace(Step(s, pma, ins[0]).0, pma, ins[1..])
  }

  predicate AlignedEvent(e: Event) {
    match e
    case Completed(DoLoad(_, size, _), pa, _) => Aligned(pa, size)
    case Completed(DoStore(_, size, _, _), pa, _) => Aligned(pa, size)
    case Completed(DoAmo(_, _, _), pa, _) => pa.byte == 0
    case _ => true
  }

  ghost function FlatAfter(f: Flat, e: Event): Flat
    requires AlignedEvent(e)
  {
    match e
    case Completed(DoStore(_, size, data, _), pa, reply) =>
      if Writes(e.cmd, reply) then DP.FlatStep(f, Store(pa, size, data)) else f
    case Completed(DoAmo(_, src, fn), pa, reply) => DP.FlatStep(f, Store(pa, WordSize, Swapped(fn, reply, src)))
    case _ => f
  }

  /** A load or an AMO returns what flat memory holds at that point, and what the AMO leaves is
      what its funct5 makes of that and the source. */
  ghost predicate FlatRight(f: Flat, e: Event)
    requires AlignedEvent(e)
  {
    match e
    case Completed(DoLoad(_, size, _), pa, reply) => reply == DP.FlatAnswer(f, Load(pa, size))
    case Completed(DoStore(_, _, _, sc), _, reply) => sc ==> reply == ZERO_LANES || reply == ONE
    case Completed(DoAmo(_, src, fn), pa, reply) =>
      reply == DP.FlatAnswer(f, Load(pa, WordSize))
      && Amo.Means(fn, Value(reply), Value(src), Value(Swapped(fn, reply, src)))
    case _ => true
  }

  ghost predicate FlatRun(f: Flat, t: seq<Event>)
    decreases |t|
  {
    t == [] || (AlignedEvent(t[0]) && FlatRight(f, t[0]) && FlatRun(FlatAfter(f, t[0]), t[1..]))
  }

  /** The flat memory after a sequence of completed operations. */
  ghost function FlatTo(f: Flat, t: seq<Event>): Flat
    requires FlatRun(f, t)
    decreases |t|
  {
    if t == [] then f else FlatTo(FlatAfter(f, t[0]), t[1..])
  }

  lemma EventIsFlat(before: Blocks, e: Event, after: Blocks)
    requires Atomic(before, e, after) && AlignedEvent(e)
    ensures FlatRight(FlatOf(before), e) && FlatOf(after) == FlatAfter(FlatOf(before), e)
  {
    match e
    case Completed(DoLoad(_, size, _), pa, _) => LoadIsFlat(before, pa, size);
    case Completed(DoStore(_, size, data, _), pa, _) => StoreIsFlat(before, pa, size, data);
    case Completed(DoAmo(_, src, fn), pa, reply) =>
      LoadIsFlat(before, pa, WordSize);
      StoreIsFlat(before, pa, WordSize, Swapped(fn, reply, src));
    case _ =>
  }

  lemma EventAligned(l: Lsu, job: Job, d: DP.Sys, in_: In, out: Out)
    requires Discipline(l, d) && JobOk(l, job) && AlignedCmd(in_.cmd)
    ensures AlignedEvent(EventOf(Current(l, job, in_), out))
  {
  }

  lemma {:induction false} RunAtomic(s: Sys, logical: Blocks, pma: DC.Pmas, ins: seq<SysIn>)
    requires Inv(s, logical, pma) && LegalRun(s, pma, ins)
    ensures FlatRun(FlatOf(logical), Trace(s, pma, ins))
    ensures FlatOf(LogicalTo(s, logical, pma, ins)) == FlatTo(FlatOf(logical), Trace(s, pma, ins))
    ensures Inv(RunTo(s, pma, ins), LogicalTo(s, logical, pma, ins), pma)
    decreases |ins|
  {
    if ins != [] {
      var s' := Step(s, pma, ins[0]).0;
      var logical' := After(s, logical, pma, ins[0]);
      InvStep(s, logical, pma, ins[0]);
      EveryStepAtomic(s, logical, pma, ins[0]);
      EventAligned(s.l, s.job, s.d, ins[0].core, Step(s, pma, ins[0]).1);
      EventIsFlat(logical, EventAt(s, pma, ins[0]), logical');
      RunAtomic(s', logical', pma, ins[1..]);
      assert Trace(s, pma, ins)[1..] == Trace(s', pma, ins[1..]);
    }
  }

  /** From power-on, any mix of loads, stores, LR/SC, AMOs, flushes and page-table walks, with
      any delays: the commands answered, in order, are atomic steps on flat byte memory, each at
      the physical address its virtual one translated to when it was taken. */
  lemma LoadStoreUnitIsAtomic(s: Sys, pma: DC.Pmas, ins: seq<SysIn>)
    requires PowerOn(s) && LegalRun(s, pma, ins)
    ensures FlatRun(FlatOf(s.d.mem), Trace(s, pma, ins))
    ensures FlatOf(LogicalTo(s, s.d.mem, pma, ins)) == FlatTo(FlatOf(s.d.mem), Trace(s, pma, ins))
  {
    PowerOnInv(s, pma);
    RunAtomic(s, s.d.mem, pma, ins);
  }

  // ---- LR and SC ----

  /** The LRs and SCs that translate, in the order they do. */
  ghost function LrScs(s: Sys, pma: DC.Pmas, ins: seq<SysIn>): seq<LrSc>
    decreases |ins|
  {
    if ins == [] then [] else LrScOf(s.l, ins[0].core) + LrScs(Step(s, pma, ins[0]).0, pma, ins[1..])
  }

  lemma {:induction false} LastIsLatest(s: Sys, pma: DC.Pmas, ins: seq<SysIn>)
    requires ReservationOk(s.l, s.last)
    ensures var t := LrScs(s, pma, ins); var e := RunTo(s, pma, ins);
            ReservationOk(e.l, e.last) && e.last == (if t == [] then s.last else t[|t| - 1])
    decreases |ins|
  {
    if ins != [] {
      ReservationStep(s.l, s.last, ins[0].core, PortAt(s, pma, ins[0]));
      LastIsLatest(Step(s, pma, ins[0]).0, pma, ins[1..]);
    }
  }

  /** A store-conditional that translates goes on to its write exactly when the latest LR or SC
      that translated before it, in the whole run, was an LR to the same physical address;
      otherwise it answers 1 at once and starts no write. */
  lemma StoreConditionalExact(s: Sys, pma: DC.Pmas, ins: seq<SysIn>, in_: SysIn, pa: Addr)
    requires PowerOn(s)
    requires var e := RunTo(s, pma, ins);
             e.l.proc.Idle? && !in_.core.cacheFlush && !in_.core.tlbFlush && in_.core.cmd.DoStore? && in_.core.cmd.sc
             && TranslateVa(e.l.tlb, in_.core.csr, in_.core.cmd.va, StoreAccess) == Physical(pa)
    ensures var e := RunTo(s, pma, ins); var t := LrScs(s, pma, ins);
            var l' := Step(e, pma, in_).0.l; var out := Step(e, pma, in_).1;
            && (l'.proc.CacheableWrite? <==> t != [] && t[|t| - 1] == Lr(pa))
            && (l'.proc.CacheableWrite? ==> l'.addr == pa && l'.data == in_.core.cmd.data && l'.sc)
            && (!l'.proc.CacheableWrite? ==> l'.proc.Idle? && out.ready && out.loadData == ONE)
            && !l'.reservation.valid
  {
    LastIsLatest(s, pma, ins);
  }

  // ---- store-conditionals on the trace ----

  /** While a store-conditional writes, the history ends with the LR it belongs to and itself. */
  predicate ScWrites(l: Lsu, t: seq<LrSc>) {
    l.proc.CacheableWrite? && l.sc ==> |t| >= 2 && t[|t| - 1] == Sc && t[|t| - 2] == Lr(l.addr)
  }

  predicate HistoryOk(s: Sys, t: seq<LrSc>) {
    ReservationOk(s.l, s.last) && ScWrites(s.l, t) && s.last == (if t == [] then Never else t[|t| - 1])
  }

  lemma ScStarts(l: Lsu, last: LrSc, t: seq<LrSc>, in_: In, port: Port)
    requires ReservationOk(l, last) && ScWrites(l, t) && last == (if t == [] then Never else t[|t| - 1])
    ensures ScWrites(Next(l, in_, port).0, t + LrScOf(l, in_))
  {
    if l.proc.Idle? { assert |LrScOf(l, in_)| <= 1; } else { assert LrScOf(l, in_) == []; }
  }

  lemma HistoryStep(s: Sys, pma: DC.Pmas, t: seq<LrSc>, in_: SysIn)
    requires HistoryOk(s, t)
    ensures HistoryOk(Step(s, pma, in_).0, t + LrScOf(s.l, in_.core))
  {
    ScStarts(s.l, s.last, t, in_.core, PortAt(s, pma, in_));
    ReservationStep(s.l, s.last, in_.core, PortAt(s, pma, in_));
  }

  lemma {:induction false} RunHistory(s: Sys, pma: DC.Pmas, t: seq<LrSc>, ins: seq<SysIn>)
    requires HistoryOk(s, t)
    ensures HistoryOk(RunTo(s, pma, ins), t + LrScs(s, pma, ins))
    decreases |ins|
  {
    if ins == [] {
      assert t + [] == t;
    } else {
      var now, rest := LrScOf(s.l, ins[0].core), LrScs(Step(s, pma, ins[0]).0, pma, ins[1..]);
      HistoryStep(s, pma, t, ins[0]);
      RunHistory(Step(s, pma, ins[0]).0, pma, t + now, ins[1..]);
      assert (t + now) + rest == t + (now + rest);
    }
  }

  /** The answer to a store-conditional, in the clock it is given. */
  lemma ScAnswer(l: Lsu, last: LrSc, job: Job, t: seq<LrSc>, in_: In, port: Port)
    requires ReservationOk(l, last) && JobOk(l, job) && ScWrites(l, t) && last == (if t == [] then Never else t[|t| - 1])
    requires var e := EventOf(Current(l, job, in_), Next(l, in_, port).1);
             e.Completed? && e.cmd.DoStore? && e.cmd.sc
    ensures var e := EventOf(Current(l, job, in_), Next(l, in_, port).1);
            var h := t + LrScOf(l, in_);
            && |h| > 0 && h[|h| - 1] == Sc
            && e.reply == (if |h| >= 2 && h[|h| - 2] == Lr(e.pa) then ZERO_LANES else ONE)
  {
  }

  lemma HistoryFromPowerOn(s: Sys, pma: DC.Pmas, ins: seq<SysIn>)
    requires PowerOn(s) && LegalRun(s, pma, ins)
    ensures var e := RunTo(s, pma, ins); HistoryOk(e, LrScs(s, pma, ins)) && JobOk(e.l, e.job)
  {
    PowerOnInv(s, pma);
    RunAtomic(s, s.d.mem, pma, ins);
    RunHistory(s, pma, [], ins);
    assert [] + LrScs(s, pma, ins) == LrScs(s, pma, ins);
  }

  /** Every store-conditional answered in a run: in the history of translated LRs and SCs it is the last,
      and it replies 0 exactly when the one before it is an LR to its physical address, and 1 otherwise. */
  lemma CompletedScExact(s: Sys, pma: DC.Pmas, ins: seq<SysIn>, in_: SysIn)
    requires PowerOn(s) && LegalRun(s, pma, ins)
    requires var e := EventAt(RunTo(s, pma, ins), pma, in_); e.Completed? && e.cmd.DoStore? && e.cmd.sc
    ensures var end := RunTo(s, pma, ins); var e := EventAt(end, pma, in_);
            var h := LrScs(s, pma, ins) + LrScOf(end.l, in_.core);
            && |h| > 0 && h[|h| - 1] == Sc
            && e.reply == (if |h| >= 2 && h[|h| - 2] == Lr(e.pa) then ZERO_LANES else ONE)
  {
    var end := RunTo(s, pma, ins);
    HistoryFromPowerOn(s, pma, ins);
    ScAnswer(end.l, end.last, end.job, LrScs(s, pma, ins), in_.core, PortAt(end, pma, in_));
  }

  // ---- access faults ----

  function AccessFaultOf(cmd: Cmd): Exception { if cmd.DoLoad? then LoadAccessFault else StoreAccessFault }

  predicate AccessFaulting(e: Exception) { e.LoadAccessFault? || e.StoreAccessFault? }

  /** The cache's answer to a request for a block that is not there. */
  lemma EmptyFaults(s: Sys, logical: Blocks, pma: DC.Pmas, in_: SysIn)
    requires Inv(s, logical, pma) && !RequestOf(s.l).NoRequest? && !FlushesCache(s.l, in_.core)
    ensures PortAt(s, pma, in_).Fault? <==> pma(RequestOf(s.l).addr.block).Empty?
  {
    DR.FaultsExactly(s.d, pma, DataIn(s, in_));
  }

  lemma JobFaults(l: Lsu, in_: In, port: Port, job: Job)
    requires JobOk(l, job) && job.Doing? && l.walker.proc.WIdle? && !port.Flushed?
    requires RequestOf(l).NoRequest? ==> port.Wait?
    ensures Next(l, in_, port).1.fault == if port.Fault? then AccessFaultOf(job.cmd) else NoFault
  {
  }

  lemma JobAddress(l: Lsu, job: Job)
    requires JobOk(l, job) && job.Doing? && l.walker.proc.WIdle?
    ensures RequestOf(l).NoRequest? || RequestOf(l).addr == job.pa
    ensures RequestOf(l).NoRequest? ==> l.proc.AmoExe? && l.amoPhase.AmoAlu?
  {
  }

  /** A command in progress faults exactly when the block at its physical address is not there, with the
      fault of its kind. */
  lemma AccessFaultsExactly(s: Sys, logical: Blocks, pma: DC.Pmas, in_: SysIn)
    requires Inv(s, logical, pma) && Legal(s, pma, in_) && s.job.Doing?
    ensures Step(s, pma, in_).1.fault
            == if !RequestOf(s.l).NoRequest? && pma(s.job.pa.block).Empty? then AccessFaultOf(s.job.cmd) else NoFault
  {
    LegalData(s, logical, pma, in_);
    CacheClockHolds(s.d, logical, pma, DataIn(s, in_));
    JobAddress(s.l, s.job);
    CacheFaultIsEmpty(s.d, pma, DataIn(s, in_));
    if !RequestOf(s.l).NoRequest? { EmptyFaults(s, logical, pma, in_); }
    JobFaults(s.l, in_.core, PortAt(s, pma, in_), s.job);
  }

  lemma OnlyFromThePort(l: Lsu, in_: In, port: Port)
    requires !l.proc.CacheableRead? && !l.proc.CacheableWrite? && !l.proc.AmoExe?
    ensures AccessFaulting(Next(l, in_, port).1.fault) ==> port.Fault?
  {
  }

  /** And without one no access fault of a command is raised, while page tables are in existing memory. */
  lemma NoOtherAccessFaults(s: Sys, logical: Blocks, pma: DC.Pmas, in_: SysIn)
    requires Inv(s, logical, pma) && Legal(s, pma, in_) && s.job.NoJob?
    ensures !AccessFaulting(Step(s, pma, in_).1.fault)
  {
    OnlyFromThePort(s.l, in_.core, PortAt(s, pma, in_));
    CacheFaultIsEmpty(s.d, pma, DataIn(s, in_));
  }
}

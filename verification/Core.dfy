/** The load/store unit with its cache, the fetch unit, and what the core wires between them: the
    walks it passes on, and the done flags of fence.i and sfence.vma. One `Step` per clock. */
module Core {
  import opened Words
  import opened Memory
  import opened Paging
  import opened Translation
  import L = LoadStore
  import LP = LoadStoreProof
  import LR = LoadStoreResults
  import DC = DataCache
  import DP = DataCacheProof
  import IF = IFetch
  import IP = IFetchProof

  /** ic_invalidate_done, ic_tlb_flush_done, lsu_cache_flush_done, lsu_tlb_flush_done. */
  datatype Flags = Flags(icInvalid: bool, icTlb: bool, lsuCache: bool, lsuTlb: bool)

  const CLEAR := Flags(false, false, false, false)

  /** What the memory stage asserts. */
  datatype Op = DataOp(cmd: L.Cmd) | FenceI | SfenceVma

  /** History only: the page and mode of the fetch unit's last lookup. */
  datatype Look = Never | Looked(page: Vpn, paged: bool, priv: Priv)

  datatype Core = Core(s: LP.Sys, ic: IF.IFetch, done: Flags, look: Look)

  /** A clock: the memory stage, satp and status, the fetch stage, and memory at both ports. What
      memory drives to the fetch unit is free. */
  datatype CoreIn = CoreIn(op: Op, csr: L.Csr, read: bool, addr: Addr, priv: Priv,
                           memReady: bool, dw: DC.DoubleWrite, fillReady: bool, block: Line)

  datatype CoreOut = CoreOut(data: L.Out, fetch: IF.IOut)

  /** The fetch unit asks for a TLB entry while it waits for a walk, and at no other time. */
  function LsuIn(ic: IF.IFetch, done: Flags, in_: CoreIn): L.In {
    L.In(in_.op.FenceI? && !done.lsuCache, in_.op.SfenceVma? && !done.lsuTlb,
         if in_.op.DataOp? then in_.op.cmd else L.NoCmd,
         if ic.proc.PageTableWalk? then L.ReadTlb(ic.walkVpn) else L.NoRead, in_.csr)
  }

  function DataIn(ic: IF.IFetch, done: Flags, in_: CoreIn): LP.SysIn {
    LP.SysIn(LsuIn(ic, done, in_), in_.memReady, in_.dw)
  }

  function AnswerOf(out: L.Out): IF.WalkAnswer {
    match out.pte
    case Leaf(pte, level) => IF.PteReady(pte, level)
    case NoLeaf =>
      if out.fault.TlbPageFault? then IF.WalkPageFault
      else if out.fault.TlbAccessFault? then IF.WalkAccessFault
      else IF.NoAnswer
  }

  function FetchIn(done: Flags, in_: CoreIn, out: L.Out): IF.IIn {
    IF.IIn(in_.read, in_.addr, in_.csr.paging && !in_.priv.Machine?, in_.priv,
           !in_.op.DataOp? && !done.icInvalid, in_.op.SfenceVma? && !done.icTlb, AnswerOf(out), in_.fillReady)
  }

  predicate Retires(done: Flags, op: Op) {
    match op
    case DataOp(_) => false
    case FenceI => done.icInvalid && done.lsuCache
    case SfenceVma => done.icInvalid && done.icTlb && done.lsuTlb
  }

  function FlagsAfter(done: Flags, op: Op, data: L.Out, fetch: IF.IOut): Flags {
    if Retires(done, op) then
      if op.FenceI? then done.(icInvalid := false, lsuCache := false)
      else done.(icInvalid := false, icTlb := false, lsuTlb := false)
    else Flags(done.icInvalid || fetch.invalidateDone, done.icTlb || fetch.tlbFlushDone,
               done.lsuCache || data.cacheFlushDone, done.lsuTlb || data.tlbFlushDone)
  }

  function LookAfter(look: Look, ic: IF.IFetch, in_: IF.IIn, ic': IF.IFetch): Look {
    if ic.proc.Idle? && ic'.proc.CompareTag? then Looked(in_.addr.block.tag, in_.sv32, in_.priv) else look
  }

  ghost function Step(c: Core, pma: DC.Pmas, in_: CoreIn): (Core, CoreOut) {
    var (s', data) := LP.Step(c.s, pma, DataIn(c.ic, c.done, in_));
    var fetchIn := FetchIn(c.done, in_, data);
    var (ic', fetch) := IF.Next(c.ic, fetchIn, in_.block);
    (Core(s', ic', FlagsAfter(c.done, in_.op, data, fetch), LookAfter(c.look, c.ic, fetchIn, ic')), CoreOut(data, fetch))
  }

  ghost function After(c: Core, logical: Blocks, pma: DC.Pmas, in_: CoreIn): Blocks {
    LP.After(c.s, logical, pma, DataIn(c.ic, c.done, in_))
  }

  /** The load/store unit's promises, and no fetch is issued while fence.i or sfence.vma, having
      emptied the fetch unit, waits for the rest. */
  predicate Legal(c: Core, pma: DC.Pmas, in_: CoreIn) {
    && LP.Legal(c.s, pma, DataIn(c.ic, c.done, in_))
    && (c.done.icInvalid && !in_.op.DataOp? ==> !in_.read)
  }

  // ---- runs ----

  ghost predicate LegalRun(c: Core, pma: DC.Pmas, ins: seq<CoreIn>)
    decreases |ins|
  {
    ins == [] || (Legal(c, pma, ins[0]) && LegalRun(Step(c, pma, ins[0]).0, pma, ins[1..]))
  }

  /** The core, and the logical memory, after a run. */
  datatype Moment = Moment(c: Core, logical: Blocks)

  ghost function Run(m: Moment, pma: DC.Pmas, ins: seq<CoreIn>): Moment
    decreases |ins|
  {
    if ins == [] then m else Run(Next(m, pma, ins[0]), pma, ins[1..])
  }

  ghost function Next(m: Moment, pma: DC.Pmas, in_: CoreIn): Moment {
    Moment(Step(m.c, pma, in_).0, After(m.c, m.logical, pma, in_))
  }

  ghost function Trace(c: Core, pma: DC.Pmas, ins: seq<CoreIn>): seq<LP.Event>
    decreases |ins|
  {
    if ins == [] then []
    else [LR.EventAt(c.s, pma, DataIn(c.ic, c.done, ins[0]))] + Trace(Step(c, pma, ins[0]).0, pma, ins[1..])
  }

  ghost predicate PowerOn(c: Core) {
    && LR.PowerOn(c.s) && c.ic.proc.Idle? && c.done == CLEAR
    && forall k | 0 <= k < |c.ic.tlb.entries| :: !c.ic.tlb.entries[k].valid
  }

  // ---- what every run keeps ----

  ghost predicate InvalidBelow(lines: IF.ILines, n: nat) {
    forall i: Index :: i < n ==> !lines[i].valid
  }

  /** A walk for the fetch unit is for the page it waits for. */
  predicate Waiting(l: L.Lsu, ic: IF.IFetch) {
    WalksForFetch(l) ==> ic.proc.PageTableWalk? && ic.walkVpn == l.ptwVpn
  }

  ghost predicate EmptiedSoFar(ic: IF.IFetch) { ic.proc.Invalidate? ==> InvalidBelow(ic.lines, ic.invalidateCnt) }

  ghost predicate Inv(m: Moment, pma: DC.Pmas) {
    LP.Inv(m.c.s, m.logical, pma) && Waiting(m.c.s.l, m.c.ic) && EmptiedSoFar(m.c.ic)
  }

  predicate WalksForFetch(l: L.Lsu) { l.proc.PageTableWalk? && l.ptwFor.ForFetch? }

  /** While a walk for the fetch unit starts or goes on, nothing is answered that would end its wait. */
  lemma FetchWalkStarts(l: L.Lsu, in_: L.In, port: L.Port)
    requires l.proc.Idle?
    ensures var (l', out) := L.Next(l, in_, port);
            WalksForFetch(l') ==> in_.tlbRead == L.ReadTlb(l'.ptwVpn) && out.pte.NoLeaf? && !out.fault.TlbPageFault?
  {
  }

  lemma FetchWalkLasts(l: L.Lsu, in_: L.In, port: L.Port)
    requires !l.proc.Idle?
    ensures var (l', out) := L.Next(l, in_, port);
            WalksForFetch(l') ==> WalksForFetch(l) && l'.ptwVpn == l.ptwVpn && out.pte.NoLeaf? && !out.fault.TlbPageFault?
  {
  }

  lemma WaitingStep(l: L.Lsu, ic: IF.IFetch, in_: L.In, port: L.Port, fetch: IF.IIn, block: Line)
    requires Waiting(l, ic) && fetch.walk == AnswerOf(L.Next(l, in_, port).1)
    requires in_.tlbRead == if ic.proc.PageTableWalk? then L.ReadTlb(ic.walkVpn) else L.NoRead
    ensures Waiting(L.Next(l, in_, port).0, IF.Next(ic, fetch, block).0)
  {
    if l.proc.Idle? { FetchWalkStarts(l, in_, port); } else { FetchWalkLasts(l, in_, port); }
  }

  lemma EmptyingStep(ic: IF.IFetch, in_: IF.IIn, block: Line)
    requires EmptiedSoFar(ic)
    ensures var (ic', out) := IF.Next(ic, in_, block);
            EmptiedSoFar(ic') && (out.invalidateDone ==> InvalidBelow(ic'.lines, 256) && ic'.proc.Idle?)
  {
  }

  lemma InvStep(m: Moment, pma: DC.Pmas, in_: CoreIn)
    requires Inv(m, pma) && Legal(m.c, pma, in_)
    ensures Inv(Next(m, pma, in_), pma)
  {
    var din := DataIn(m.c.ic, m.c.done, in_);
    var out := LP.Step(m.c.s, pma, din).1;
    LP.InvStep(m.c.s, m.logical, pma, din);
    WaitingStep(m.c.s.l, m.c.ic, din.core, LP.PortAt(m.c.s, pma, din), FetchIn(m.c.done, in_, out), in_.block);
    EmptyingStep(m.c.ic, FetchIn(m.c.done, in_, out), in_.block);
  }

  lemma {:induction false} RunInv(m: Moment, pma: DC.Pmas, ins: seq<CoreIn>)
    requires Inv(m, pma) && LegalRun(m.c, pma, ins)
    ensures Inv(Run(m, pma, ins), pma)
    decreases |ins|
  {
    if ins != [] {
      InvStep(m, pma, ins[0]);
      RunInv(Next(m, pma, ins[0]), pma, ins[1..]);
    }
  }

  ghost function Start(c: Core): Moment { Moment(c, c.s.d.mem) }

  lemma PowerOnInv(c: Core, pma: DC.Pmas)
    requires PowerOn(c)
    ensures Inv(Start(c), pma)
  {
    LR.PowerOnInv(c.s, pma);
  }

  lemma EventStep(c: Core, logical: Blocks, pma: DC.Pmas, in_: CoreIn)
    requires Inv(Moment(c, logical), pma) && Legal(c, pma, in_)
    ensures var e := LR.EventAt(c.s, pma, DataIn(c.ic, c.done, in_));
            LR.AlignedEvent(e) && LR.FlatRight(FlatOf(logical), e)
            && FlatOf(After(c, logical, pma, in_)) == LR.FlatAfter(FlatOf(logical), e)
  {
    var din := DataIn(c.ic, c.done, in_);
    LP.EveryStepAtomic(c.s, logical, pma, din);
    LR.EventAligned(c.s.l, c.s.job, c.s.d, din.core, LP.Step(c.s, pma, din).1);
    LR.EventIsFlat(logical, LR.EventAt(c.s, pma, din), After(c, logical, pma, in_));
  }

  /** From power-on, fences and fetches included, the commands answered are a run of flat byte
      memory that ends in the logical memory. */
  lemma {:induction false} RunIsFlat(m: Moment, pma: DC.Pmas, ins: seq<CoreIn>)
    requires Inv(m, pma) && LegalRun(m.c, pma, ins)
    ensures LR.FlatRun(FlatOf(m.logical), Trace(m.c, pma, ins))
    ensures FlatOf(Run(m, pma, ins).logical) == LR.FlatTo(FlatOf(m.logical), Trace(m.c, pma, ins))
    decreases |ins|
  {
    if ins != [] {
      var n := Next(m, pma, ins[0]);
      InvStep(m, pma, ins[0]);
      EventStep(m.c, m.logical, pma, ins[0]);
      RunIsFlat(n, pma, ins[1..]);
      assert Trace(m.c, pma, ins)[1..] == Trace(n.c, pma, ins[1..]);
    }
  }

  lemma {:induction false} RunUnique(m: Moment, pma: DC.Pmas, ins: seq<CoreIn>)
    requires IP.Unique(m.c.ic)
    ensures IP.Unique(Run(m, pma, ins).c.ic)
    decreases |ins|
  {
    if ins != [] {
      var out := LP.Step(m.c.s, pma, DataIn(m.c.ic, m.c.done, ins[0])).1;
      IP.UniqueStep(m.c.ic, FetchIn(m.c.done, ins[0], out), ins[0].block);
      RunUnique(Next(m, pma, ins[0]), pma, ins[1..]);
    }
  }

  /** In every run from power-on, whatever happens to page tables, satp and memory, no two entries of the
      instruction TLB are for one page. */
  lemma InstructionTlbUnique(c: Core, pma: DC.Pmas, ins: seq<CoreIn>)
    requires PowerOn(c)
    ensures NoDuplicates(Run(Start(c), pma, ins).c.ic.tlb)
  {
    RunUnique(Start(c), pma, ins);
  }

  // ---- the unit while the memory stage holds a fence ----

  predicate Settled(l: L.Lsu) { l.proc.Idle? || l.proc.PageTableWalk? }

  /** Asked for nothing but walks, the unit changes neither logical memory nor, once they agree,
      memory. */
  lemma SettledStep(s: LP.Sys, logical: Blocks, pma: DC.Pmas, in_: LP.SysIn)
    requires LP.Inv(s, logical, pma) && LP.Legal(s, pma, in_) && Settled(s.l)
    requires in_.core.cmd.NoCmd? && !in_.core.cacheFlush && !in_.core.tlbFlush
    ensures var s' := LP.Step(s, pma, in_).0;
            && Settled(s'.l) && LP.After(s, logical, pma, in_) == logical
            && (s.d.mem == logical ==> s'.d.mem == logical)
  {
    LP.LegalData(s, logical, pma, in_);
    assert !s.d.pend.Store?;
    DP.StepRefines(s.d, logical, pma, LP.DataIn(s, in_));
    if s.d.mem == logical { CleanStays(s.d, logical, pma, LP.DataIn(s, in_)); }
    StaysSettled(s.l, in_.core, LP.PortAt(s, pma, in_));
  }

  lemma StaysSettled(l: L.Lsu, in_: L.In, port: L.Port)
    requires Settled(l) && in_.cmd.NoCmd? && !in_.cacheFlush && !in_.tlbFlush
    ensures Settled(L.Next(l, in_, port).0)
  {
  }

  /** Without stores, memory that is the logical memory stays so. */
  lemma CleanStays(d: DP.Sys, logical: Blocks, pma: DC.Pmas, in_: DC.In)
    requires DP.Inv(d, logical, pma) && DP.Legal(d, in_) && !d.pend.Store? && d.mem == logical
    ensures DP.Step(d, pma, in_).0.mem == logical
  {
  }
}

/** fence.i and sfence.vma in the memory stage, up to the clock in which they retire. */
module Fences {
  import opened Words
  import opened Memory
  import opened Paging
  import opened Translation
  import opened Core
  import L = LoadStore
  import LP = LoadStoreProof
  import LT = LoadStoreTranslation
  import DC = DataCache
  import DP = DataCacheProof
  import IF = IFetch

  // ---- fence.i ----

  /** What the done flags of fence.i stand for. */
  ghost predicate FenceIInv(m: Moment) {
    && (m.c.done.lsuCache ==> m.c.s.d.mem == m.logical && Settled(m.c.s.l))
    && (m.c.done.icInvalid ==> InvalidBelow(m.c.ic.lines, 256) && m.c.ic.proc.Idle?)
  }

  /** The clock in which the load/store unit reports its flush. */
  lemma FlushReported(s: LP.Sys, logical: Blocks, pma: DC.Pmas, in_: LP.SysIn)
    requires LP.Inv(s, logical, pma) && LP.Legal(s, pma, in_) && LP.Step(s, pma, in_).1.cacheFlushDone
    ensures var s' := LP.Step(s, pma, in_).0; s'.d.mem == LP.After(s, logical, pma, in_) && s'.l.proc.Idle?
  {
    LP.LegalData(s, logical, pma, in_);
    DP.StepRefines(s.d, logical, pma, LP.DataIn(s, in_));
    LP.CacheClockHolds(s.d, logical, pma, LP.DataIn(s, in_));
  }

  /** An emptied fetch unit that is not asked for anything stays as it is. */
  lemma EmptyStays(ic: IF.IFetch, in_: IF.IIn, block: Line)
    requires ic.proc.Idle? && !in_.read && !in_.invalidate
    ensures var (ic', out) := IF.Next(ic, in_, block);
            && ic'.lines == ic.lines && !out.invalidateDone
            && (ic'.proc.Idle? || (ic'.proc.FlushTlb? && in_.tlbFlush))
  {
  }

  lemma FenceIStep(m: Moment, pma: DC.Pmas, in_: CoreIn)
    requires Inv(m, pma) && Legal(m.c, pma, in_) && in_.op.FenceI? && FenceIInv(m) && !Retires(m.c.done, FenceI)
    ensures FenceIInv(Next(m, pma, in_))
  {
    var din := DataIn(m.c.ic, m.c.done, in_);
    var data := LP.Step(m.c.s, pma, din).1;
    if m.c.done.lsuCache { SettledStep(m.c.s, m.logical, pma, din); }
    else if data.cacheFlushDone { FlushReported(m.c.s, m.logical, pma, din); }
    var fetchIn := FetchIn(m.c.done, in_, data);
    if m.c.done.icInvalid { EmptyStays(m.c.ic, fetchIn, in_.block); }
    else { EmptyingStep(m.c.ic, fetchIn, in_.block); }
  }

  /** fence.i is asserted in every clock and does not retire before the last. */
  ghost predicate FenceIRun(m: Moment, pma: DC.Pmas, ins: seq<CoreIn>)
    decreases |ins|
  {
    ins == [] || (
      && Legal(m.c, pma, ins[0]) && ins[0].op.FenceI? && !Retires(m.c.done, FenceI)
      && FenceIRun(Next(m, pma, ins[0]), pma, ins[1..]))
  }

  lemma {:induction false} FenceIKeeps(m: Moment, pma: DC.Pmas, ins: seq<CoreIn>)
    requires Inv(m, pma) && FenceIInv(m) && FenceIRun(m, pma, ins)
    ensures Inv(Run(m, pma, ins), pma) && FenceIInv(Run(m, pma, ins)) && LegalRun(m.c, pma, ins)
    decreases |ins|
  {
    if ins != [] {
      InvStep(m, pma, ins[0]);
      FenceIStep(m, pma, ins[0]);
      FenceIKeeps(Next(m, pma, ins[0]), pma, ins[1..]);
    }
  }

  /** Memory is the logical memory, and the fetch unit holds no line and is idle. */
  ghost predicate Synced(m: Moment) {
    m.c.s.d.mem == m.logical && InvalidBelow(m.c.ic.lines, 256) && m.c.ic.proc.Idle?
  }

  /** fence.i may arrive in any reachable state, a page walk or a refill for the fetch unit
      included. It cannot retire before memory and fetch unit are in step with the stores. */
  lemma RetiresOnlyWhenSynced(m: Moment, pma: DC.Pmas, ins: seq<CoreIn>)
    requires Inv(m, pma) && m.c.done == CLEAR && FenceIRun(m, pma, ins)
    ensures var e := Run(m, pma, ins); Inv(e, pma) && (Retires(e.c.done, FenceI) ==> Synced(e))
  {
    FenceIKeeps(m, pma, ins);
  }

  // ---- sfence.vma ----

  ghost predicate NoEntries(t: Tlb) { forall k | 0 <= k < |t.entries| :: !t.entries[k].valid }

  /** The fetch unit's part: empty lines once the first flag is set, an empty TLB once the second. */
  ghost predicate Emptied(ic: IF.IFetch, done: Flags) {
    && (done.icInvalid ==> InvalidBelow(ic.lines, 256) && (ic.proc.Idle? || ic.proc.FlushTlb?))
    && (done.icTlb ==> NoEntries(ic.tlb) && (ic.proc.Idle? || ic.proc.Invalidate?))
  }

  /** What the done flags of sfence.vma stand for, page tables included. */
  ghost predicate SfenceInv(m: Moment, root: PpnValue) {
    && (m.c.done.lsuTlb ==> LT.Coherent(m.c.s.l, m.logical, root) && Settled(m.c.s.l))
    && Emptied(m.c.ic, m.c.done)
  }

  lemma TlbFlushReported(l: L.Lsu, in_: L.In, port: L.Port, m: Blocks, root: PpnValue)
    requires L.Next(l, in_, port).1.tlbFlushDone && (!l.walker.proc.WIdle? ==> l.proc.PageTableWalk?)
    ensures var l' := L.Next(l, in_, port).0; LT.Coherent(l', m, root) && Settled(l')
  {
    LT.TlbNext(l, in_, port);
  }

  /** A clock of the fetch unit while sfence.vma asks for what its flags do not report yet. */
  lemma EmptiedStep(ic: IF.IFetch, done: Flags, in_: IF.IIn, block: Line)
    requires Emptied(ic, done) && EmptiedSoFar(ic)
    requires in_.invalidate == !done.icInvalid && in_.tlbFlush == !done.icTlb && (done.icInvalid ==> !in_.read)
    ensures var (ic', out) := IF.Next(ic, in_, block);
            Emptied(ic', done.(icInvalid := done.icInvalid || out.invalidateDone, icTlb := done.icTlb || out.tlbFlushDone))
  {
    EmptyingStep(ic, in_, block);
  }

  lemma SfenceStep(m: Moment, pma: DC.Pmas, root: PpnValue, in_: CoreIn)
    requires Inv(m, pma) && Legal(m.c, pma, in_) && in_.op.SfenceVma? && in_.csr.root == root
    requires SfenceInv(m, root) && !Retires(m.c.done, SfenceVma)
    ensures SfenceInv(Next(m, pma, in_), root)
  {
    SfenceData(m, pma, root, in_);
    SfenceFetch(m, pma, root, in_);
  }

  lemma SfenceData(m: Moment, pma: DC.Pmas, root: PpnValue, in_: CoreIn)
    requires Inv(m, pma) && Legal(m.c, pma, in_) && in_.op.SfenceVma? && in_.csr.root == root
    requires SfenceInv(m, root) && !Retires(m.c.done, SfenceVma)
    ensures var n := Next(m, pma, in_);
            n.c.done.lsuTlb ==> LT.Coherent(n.c.s.l, n.logical, root) && Settled(n.c.s.l)
  {
    var din := DataIn(m.c.ic, m.c.done, in_);
    if m.c.done.lsuTlb {
      SettledStep(m.c.s, m.logical, pma, din);
      LT.CoherentStep(m.c.s, m.logical, pma, din, root);
    } else if LP.Step(m.c.s, pma, din).1.tlbFlushDone {
      TlbFlushReported(m.c.s.l, din.core, LP.PortAt(m.c.s, pma, din), After(m.c, m.logical, pma, in_), root);
    }
  }

  lemma SfenceFetch(m: Moment, pma: DC.Pmas, root: PpnValue, in_: CoreIn)
    requires Inv(m, pma) && Legal(m.c, pma, in_) && in_.op.SfenceVma?
    requires SfenceInv(m, root) && !Retires(m.c.done, SfenceVma)
    ensures var n := Next(m, pma, in_); Emptied(n.c.ic, n.c.done)
  {
    var data := LP.Step(m.c.s, pma, DataIn(m.c.ic, m.c.done, in_)).1;
    EmptiedStep(m.c.ic, m.c.done, FetchIn(m.c.done, in_, data), in_.block);
  }

  ghost predicate SfenceRun(m: Moment, pma: DC.Pmas, root: PpnValue, ins: seq<CoreIn>)
    decreases |ins|
  {
    ins == [] || (
      && Legal(m.c, pma, ins[0]) && ins[0].op.SfenceVma? && ins[0].csr.root == root && !Retires(m.c.done, SfenceVma)
      && SfenceRun(Next(m, pma, ins[0]), pma, root, ins[1..]))
  }

  lemma {:induction false} SfenceKeeps(m: Moment, pma: DC.Pmas, root: PpnValue, ins: seq<CoreIn>)
    requires Inv(m, pma) && SfenceInv(m, root) && SfenceRun(m, pma, root, ins)
    ensures Inv(Run(m, pma, ins), pma) && SfenceInv(Run(m, pma, ins), root) && LegalRun(m.c, pma, ins)
    decreases |ins|
  {
    if ins != [] {
      InvStep(m, pma, ins[0]);
      SfenceStep(m, pma, root, ins[0]);
      SfenceKeeps(Next(m, pma, ins[0]), pma, root, ins[1..]);
    }
  }

  /** When sfence.vma retires, whatever was in the TLBs and page tables before, the data TLB says
      what the tables now in memory say, and the instruction TLB says nothing. */
  lemma RetiresOnlyWhenFlushed(m: Moment, pma: DC.Pmas, root: PpnValue, ins: seq<CoreIn>)
    requires Inv(m, pma) && m.c.done == CLEAR && SfenceRun(m, pma, root, ins)
    ensures var e := Run(m, pma, ins);
            && Inv(e, pma)
            && (Retires(e.c.done, SfenceVma) ==>
                 LT.Coherent(e.c.s.l, e.logical, root) && NoEntries(e.c.ic.tlb) && InvalidBelow(e.c.ic.lines, 256)
                 && e.c.ic.proc.Idle?)
  {
    SfenceKeeps(m, pma, root, ins);
  }

  // ---- when a fence arrives ----

  /** The fence, if any, that the memory stage must go on asserting. */
  datatype Held = Nothing | Fence(op: Op)

  function HeldAfter(done: Flags, op: Op): Held { if op.DataOp? || Retires(done, op) then Nothing else Fence(op) }

  /** No flag is set, and no flush is going on, that the fence in the memory stage has not asked for. */
  predicate Fits(ic: IF.IFetch, l: L.Lsu, done: Flags, held: Held) {
    && (held.Nothing? || held.op.DataOp? ==>
         done == CLEAR && !ic.proc.Invalidate? && !ic.proc.FlushTlb? && !l.proc.FlushCache? && !l.proc.FlushTlb?)
    && (held.Fence? && held.op.FenceI? ==> !done.icTlb && !done.lsuTlb && !ic.proc.FlushTlb? && !l.proc.FlushTlb?)
    && (held.Fence? && held.op.SfenceVma? ==> !done.lsuCache && !l.proc.FlushCache?)
    && (done.icInvalid ==> !ic.proc.Invalidate?) && (done.icTlb ==> !ic.proc.FlushTlb?)
    && (done.lsuCache ==> !l.proc.FlushCache?) && (done.lsuTlb ==> !l.proc.FlushTlb?)
  }

  predicate Holds(held: Held, op: Op) { held.Fence? ==> op == held.op }

  lemma FitsFetch(ic: IF.IFetch, in_: IF.IIn, block: Line)
    ensures var (ic', out) := IF.Next(ic, in_, block);
            && (ic'.proc.Invalidate? ==> !out.invalidateDone && (ic.proc.Invalidate? || in_.invalidate))
            && (ic'.proc.FlushTlb? ==> !out.tlbFlushDone && in_.tlbFlush)
            && (out.invalidateDone ==> ic.proc.Invalidate?) && (out.tlbFlushDone ==> ic.proc.FlushTlb?)
  {
  }

  lemma FitsCacheFlush(l: L.Lsu, in_: L.In, port: L.Port)
    ensures var (l', out) := L.Next(l, in_, port);
            && (l'.proc.FlushCache? ==> !out.cacheFlushDone && (l.proc.FlushCache? || in_.cacheFlush))
            && (out.cacheFlushDone ==> l.proc.FlushCache?)
  {
  }

  lemma FitsTlbFlush(l: L.Lsu, in_: L.In, port: L.Port)
    ensures var (l', out) := L.Next(l, in_, port);
            && (l'.proc.FlushTlb? ==> !out.tlbFlushDone && in_.tlbFlush)
            && (out.tlbFlushDone ==> l.proc.FlushTlb?)
  {
  }

  lemma FitsStep(c: Core, pma: DC.Pmas, held: Held, in_: CoreIn)
    requires Fits(c.ic, c.s.l, c.done, held) && Holds(held, in_.op)
    ensures var c' := Step(c, pma, in_).0; Fits(c'.ic, c'.s.l, c'.done, HeldAfter(c.done, in_.op))
  {
    var din := DataIn(c.ic, c.done, in_);
    var data := LP.Step(c.s, pma, din).1;
    FitsCacheFlush(c.s.l, din.core, LP.PortAt(c.s, pma, din));
    FitsTlbFlush(c.s.l, din.core, LP.PortAt(c.s, pma, din));
    FitsFetch(c.ic, FetchIn(c.done, in_, data), in_.block);
  }

  /** A fence is asserted until it retires. */
  ghost predicate InOrder(c: Core, pma: DC.Pmas, held: Held, ins: seq<CoreIn>)
    decreases |ins|
  {
    ins == [] || (Holds(held, ins[0].op)
                  && InOrder(Step(c, pma, ins[0]).0, pma, HeldAfter(c.done, ins[0].op), ins[1..]))
  }

  ghost function HeldTo(c: Core, pma: DC.Pmas, held: Held, ins: seq<CoreIn>): Held
    decreases |ins|
  {
    if ins == [] then held else HeldTo(Step(c, pma, ins[0]).0, pma, HeldAfter(c.done, ins[0].op), ins[1..])
  }

  lemma {:induction false} RunFits(m: Moment, pma: DC.Pmas, held: Held, ins: seq<CoreIn>)
    requires Fits(m.c.ic, m.c.s.l, m.c.done, held) && InOrder(m.c, pma, held, ins)
    ensures var e := Run(m, pma, ins).c; Fits(e.ic, e.s.l, e.done, HeldTo(m.c, pma, held, ins))
    decreases |ins|
  {
    if ins != [] {
      FitsStep(m.c, pma, held, ins[0]);
      RunFits(Next(m, pma, ins[0]), pma, HeldAfter(m.c.done, ins[0].op), ins[1..]);
    }
  }

  /** From power-on, if every fence is asserted until it retires, the next one arrives with all flags
      clear. */
  lemma ArrivesWithFlagsClear(c: Core, pma: DC.Pmas, ins: seq<CoreIn>)
    requires PowerOn(c) && InOrder(c, pma, Nothing, ins) && HeldTo(c, pma, Nothing, ins).Nothing?
    ensures Run(Start(c), pma, ins).c.done == CLEAR
  {
    RunFits(Start(c), pma, Nothing, ins);
  }
}

/** Since an sfence.vma, while satp and the page tables stay as they are: what data accesses and
    fetches are granted and refused, against section 4.3.2 of the RISC-V Privileged ISA 1.12. */
module FetchTranslation {
  import opened Words
  import opened Memory
  import opened Paging
  import opened Translation
  import opened Core
  import opened Fences
  import L = LoadStore
  import LP = LoadStoreProof
  import LT = LoadStoreTranslation
  import DC = DataCache
  import IF = IFetch

  /** The mode of a fetch; the two status bits do not matter to it. */
  function FetchMode(priv: Priv): Mode { Mode(priv, false, false) }

  /** The physical tag a page should be fetched with: its own number with paging off, otherwise,
      exactly when the leaf is well formed, what section 4.3.2 grants. */
  ghost predicate RightTag(m: Blocks, root: PpnValue, look: Look, tag: Tag) {
    look.Looked? &&
    if look.paged then
      SpecTranslate(m, root, look.page, FetchAccess, FetchMode(look.priv)) == Grant(tag)
      <==> WellFormedLeaf(Walk(m, root, look.page))
    else tag == look.page
  }

  /** Both TLBs agree with the tables, and a lookup in progress has the right tag. */
  ghost predicate Translates(m: Moment, root: PpnValue) {
    && LT.Coherent(m.c.s.l, m.logical, root) && LT.TlbCoherent(m.c.ic.tlb, m.logical, root)
    && (m.c.ic.proc.CompareTag? ==> RightTag(m.logical, root, m.c.look, m.c.ic.tagAccessing))
  }

  /** The clock keeps the root and what the page tables say. */
  ghost predicate Kept(m: Moment, pma: DC.Pmas, root: PpnValue, in_: CoreIn) {
    Legal(m.c, pma, in_) && in_.csr.root == root
    && forall vpn: Vpn :: Walk(After(m.c, m.logical, pma, in_), root, vpn) == Walk(m.logical, root, vpn)
  }

  /** What section 4.3.2 says of a page depends on no more than the walk. */
  lemma SpecFollowsWalk(m: Blocks, m': Blocks, root: PpnValue, vpn: Vpn, kind: AccessKind, mode: Mode)
    requires Walk(m', root, vpn) == Walk(m, root, vpn)
    ensures SpecTranslate(m', root, vpn, kind, mode) == SpecTranslate(m, root, vpn, kind, mode)
  {
    WalksAgree(m, root, vpn);
    WalksAgree(m', root, vpn);
  }

  /** The entry handed to the fetch unit is the leaf of the page it asked for. */
  lemma AnswerIsLeaf(l: L.Lsu, m: Blocks, in_: L.In, port: L.Port, root: PpnValue)
    requires LT.TlbCoherent(l.tlb, m, root)
    ensures var out := L.Next(l, in_, port).1;
            out.pte.Leaf? ==> in_.tlbRead.ReadTlb? && Walk(m, root, in_.tlbRead.vpn) == out.pte
  {
  }

  /** A page fault answered to the fetch unit is for a page without a leaf. */
  lemma WalkFaults(l: L.Lsu, m: Blocks, in_: L.In, port: L.Port, root: PpnValue)
    requires LT.Coherent(l, m, root)
    ensures L.Next(l, in_, port).1.fault.TlbPageFault? ==> WalksForFetch(l) && Walk(m, root, l.ptwVpn) == NoLeaf
  {
    if l.proc.PageTableWalk? && l.walker.proc.WCheck? { LT.WalkerAnswers(l, m, root); }
  }

  lemma FetchTlbStep(ic: IF.IFetch, fetch: IF.IIn, block: Line, before: Blocks, after: Blocks, root: PpnValue)
    requires LT.TlbCoherent(ic.tlb, before, root) && forall vpn: Vpn :: Walk(after, root, vpn) == Walk(before, root, vpn)
    requires ic.proc.PageTableWalk? && fetch.walk.PteReady?
             ==> Walk(before, root, ic.walkVpn) == Leaf(fetch.walk.pte, fetch.walk.level)
    ensures LT.TlbCoherent(IF.Next(ic, fetch, block).0.tlb, after, root)
  {
  }

  // ---- what a fetch is granted or refused ----

  /** The fault of the fetch now asserted: translation is on and section 4.3.2 faults on its page. The
      core takes an instruction page fault at the PC then asserted. */
  ghost predicate FaultRight(in_: IF.IIn, m: Blocks, root: PpnValue) {
    in_.sv32 && SpecTranslate(m, root, in_.addr.block.tag, FetchAccess, FetchMode(in_.priv)) == PageFault
  }

  /** The fetch asserted is the one a walk in progress is for; nothing cancels a walk on a redirect. */
  predicate WalkFits(ic: IF.IFetch, in_: IF.IIn) { in_.sv32 && in_.addr.block.tag == ic.walkVpn }

  /** A page fault raised at a lookup is right. One raised at the end of a walk is for a page without a
      leaf, and is right if the fetch asserted is still for that page; FetchFaults shows that it must be. */
  ghost predicate FaultOk(ic: IF.IFetch, in_: IF.IIn, m: Blocks, root: PpnValue) {
    if ic.proc.PageTableWalk? then
      Walk(m, root, ic.walkVpn) == NoLeaf && (WalkFits(ic, in_) ==> FaultRight(in_, m, root))
    else ic.proc.Idle? && FaultRight(in_, m, root)
  }

  predicate Lookup(ic: IF.IFetch, in_: IF.IIn) { ic.proc.Idle? && in_.read && !in_.invalidate && !in_.tlbFlush }

  /** What a fetch asked of the idle unit meets: with translation off its lookup starts. With translation on
      and its page in the TLB, it faults where section 4.3.2 refuses it and its lookup starts where it is
      granted, a malformed leaf apart, where it is one of the two; and otherwise its page is walked. */
  ghost predicate LookupAnswered(ic: IF.IFetch, ic': IF.IFetch, out: IF.IOut, in_: IF.IIn, m: Blocks, root: PpnValue) {
    var page := in_.addr.block.tag;
    if !in_.sv32 then ic'.proc.CompareTag? && !out.pageFault
    else if LT.Cached(ic.tlb, page) then
      && (if out.pageFault then ic'.proc.Idle? else ic'.proc.CompareTag?)
      && (WellFormedLeaf(Walk(m, root, page)) ==>
           (out.pageFault <==> SpecTranslate(m, root, page, FetchAccess, FetchMode(in_.priv)) == PageFault))
    else ic'.proc.PageTableWalk? && ic'.walkVpn == page && !out.pageFault
  }

  /** A clock of the fetch unit: a fetch asked of it meets what LookupAnswered says, a lookup that goes on
      has the right tag, a page fault is as FaultOk says and is passed on from a walk, an access fault is
      a walk's, and a delivered word is for the page last looked up, with its tag. */
  ghost predicate FetchOk(c: Core, ic': IF.IFetch, out: IF.IOut, in_: IF.IIn, m: Blocks, root: PpnValue) {
    && (Lookup(c.ic, in_) ==> LookupAnswered(c.ic, ic', out, in_, m, root))
    && (out.pageFault ==> FaultOk(c.ic, in_, m, root))
    && (c.ic.proc.PageTableWalk? ==> (out.pageFault <==> in_.walk.WalkPageFault?))
    && (out.accessFault <==> c.ic.proc.PageTableWalk? && in_.walk.WalkAccessFault?)
    && (c.ic.proc.Idle? && ic'.proc.CompareTag? ==>
         RightTag(m, root, Looked(in_.addr.block.tag, in_.sv32, in_.priv), ic'.tagAccessing))
    && (out.ready ==> c.ic.proc.CompareTag? && RightTag(m, root, c.look, c.ic.tagAccessing))
  }

  lemma LookupOk(c: Core, in_: IF.IIn, block: Line, m: Blocks, root: PpnValue)
    requires c.ic.proc.Idle? && LT.TlbCoherent(c.ic.tlb, m, root) && (in_.sv32 ==> !in_.priv.Machine?)
    ensures var (ic', out) := IF.Next(c.ic, in_, block); FetchOk(c, ic', out, in_, m, root)
  {
    var vpn := in_.addr.block.tag;
    LT.CachedHits(c.ic.tlb, vpn);
    if in_.sv32 && TlbHit(c.ic.tlb, vpn) {
      var e := Access(c.ic.tlb, vpn);
      assert Walk(m, root, vpn) == Leaf(e.pte, e.level);
      assert Allowed(FetchAccess, e.pte, FetchMode(in_.priv)) == FetchAllowed(e.pte, in_.priv);
      TranslatesAsSpecified(m, root, vpn, FetchAccess, FetchMode(in_.priv));
    }
  }

  lemma BusyOk(c: Core, in_: IF.IIn, block: Line, m: Blocks, root: PpnValue)
    requires !c.ic.proc.Idle? && (c.ic.proc.CompareTag? ==> RightTag(m, root, c.look, c.ic.tagAccessing))
    requires c.ic.proc.PageTableWalk? && in_.walk.WalkPageFault? ==> Walk(m, root, c.ic.walkVpn) == NoLeaf
    ensures var (ic', out) := IF.Next(c.ic, in_, block); FetchOk(c, ic', out, in_, m, root)
  {
    WalksAgree(m, root, c.ic.walkVpn);
  }

  ghost function FetchInput(m: Moment, pma: DC.Pmas, in_: CoreIn): IF.IIn {
    FetchIn(m.c.done, in_, LP.Step(m.c.s, pma, DataIn(m.c.ic, m.c.done, in_)).1)
  }

  /** What the fetch unit is asked is what the fetch stage asserts, translated but for M mode, and a walk's
      faults are those of the load/store unit. */
  predicate AskedAs(in_: IF.IIn, stage: CoreIn, out: L.Out) {
    && in_.read == stage.read && in_.addr == stage.addr && in_.priv == stage.priv
    && in_.sv32 == (stage.csr.paging && !stage.priv.Machine?)
    && (stage.op.DataOp? ==> !in_.invalidate && !in_.tlbFlush)
    && (in_.walk.WalkPageFault? <==> out.fault.TlbPageFault?) && (in_.walk.WalkAccessFault? <==> out.fault.TlbAccessFault?)
  }

  ghost predicate FetchesRight(m: Moment, pma: DC.Pmas, root: PpnValue, in_: CoreIn) {
    var (c', out) := Step(m.c, pma, in_);
    && AskedAs(FetchInput(m, pma, in_), in_, out.data)
    && FetchOk(m.c, c'.ic, out.fetch, FetchInput(m, pma, in_), m.logical, root)
  }

  /** An entry is driven only where nothing faults. */
  lemma NoEntryWithFault(l: L.Lsu, in_: L.In, port: L.Port)
    ensures var out := L.Next(l, in_, port).1;
            out.pte.Leaf? ==> !out.fault.TlbPageFault? && !out.fault.TlbAccessFault?
  {
  }

  lemma AskedAsIs(m: Moment, pma: DC.Pmas, in_: CoreIn)
    ensures AskedAs(FetchInput(m, pma, in_), in_, Step(m.c, pma, in_).1.data)
  {
    NoEntryWithFault(m.c.s.l, LsuIn(m.c.ic, m.c.done, in_), LP.PortAt(m.c.s, pma, DataIn(m.c.ic, m.c.done, in_)));
  }

  lemma FetchStep(m: Moment, pma: DC.Pmas, root: PpnValue, in_: CoreIn)
    requires Inv(m, pma) && Legal(m.c, pma, in_) && Translates(m, root)
    ensures FetchesRight(m, pma, root, in_)
  {
    var fetchIn := FetchInput(m, pma, in_);
    AskedAsIs(m, pma, in_);
    if m.c.ic.proc.Idle? {
      LookupOk(m.c, fetchIn, in_.block, m.logical, root);
    } else {
      WalkFaults(m.c.s.l, m.logical, LsuIn(m.c.ic, m.c.done, in_), LP.PortAt(m.c.s, pma, DataIn(m.c.ic, m.c.done, in_)), root);
      BusyOk(m.c, fetchIn, in_.block, m.logical, root);
    }
  }

  // ---- the agreement is kept ----

  lemma LookedUpForFetch(l: L.Lsu, in_: L.In, port: L.Port, vpn: Vpn)
    requires l.proc.Idle? && in_.cmd.NoCmd? && !in_.cacheFlush && !in_.tlbFlush && in_.tlbRead == L.ReadTlb(vpn)
    ensures var (l', out) := L.Next(l, in_, port);
            if LT.Cached(l.tlb, vpn) then out.pte.Leaf?
            else l'.proc.PageTableWalk? && l'.ptwFor.ForFetch? && l'.ptwVpn == vpn
  {
    LT.CachedHits(l.tlb, vpn);
  }

  lemma AnsweredFetch(ic: IF.IFetch, in_: IF.IIn, block: Line)
    requires ic.proc.PageTableWalk? && in_.walk.PteReady?
    ensures var ic' := IF.Next(ic, in_, block).0; ic'.proc.Idle? && LT.Cached(ic'.tlb, ic.walkVpn)
  {
    assert IF.Next(ic, in_, block).0.tlb.entries[ic.tlb.pos] == TlbEntry(true, ic.walkVpn, in_.walk.pte, in_.walk.level);
  }

  /** With nothing else asked of it, the idle load/store unit answers a waiting fetch unit from its TLB, and
      then the fetch unit has its page; or it starts the walk the fetch unit waits for. */
  lemma WalkIsServed(m: Moment, pma: DC.Pmas, in_: CoreIn)
    requires m.c.ic.proc.PageTableWalk? && m.c.s.l.proc.Idle? && in_.op == DataOp(L.NoCmd)
    ensures var c' := Step(m.c, pma, in_).0; var page := m.c.ic.walkVpn;
            if LT.Cached(m.c.s.l.tlb, page) then c'.ic.proc.Idle? && LT.Cached(c'.ic.tlb, page)
            else c'.s.l.proc.PageTableWalk? && c'.s.l.ptwFor.ForFetch? && c'.s.l.ptwVpn == page
  {
    LookedUpForFetch(m.c.s.l, LsuIn(m.c.ic, m.c.done, in_), LP.PortAt(m.c.s, pma, DataIn(m.c.ic, m.c.done, in_)),
                     m.c.ic.walkVpn);
    if LT.Cached(m.c.s.l.tlb, m.c.ic.walkVpn) { AnsweredFetch(m.c.ic, FetchInput(m, pma, in_), in_.block); }
  }

  lemma TlbsStep(m: Moment, pma: DC.Pmas, root: PpnValue, in_: CoreIn)
    requires Inv(m, pma) && Kept(m, pma, root, in_) && Translates(m, root)
    ensures var n := Next(m, pma, in_); LT.Coherent(n.c.s.l, n.logical, root) && LT.TlbCoherent(n.c.ic.tlb, n.logical, root)
  {
    var din := DataIn(m.c.ic, m.c.done, in_);
    LT.CoherentStep(m.c.s, m.logical, pma, din, root);
    AnswerIsLeaf(m.c.s.l, m.logical, din.core, LP.PortAt(m.c.s, pma, din), root);
    FetchTlbStep(m.c.ic, FetchInput(m, pma, in_), in_.block, m.logical, After(m.c, m.logical, pma, in_), root);
  }

  lemma TagKept(m: Blocks, m': Blocks, root: PpnValue, look: Look, tag: Tag)
    requires RightTag(m, root, look, tag) && Walk(m', root, look.page) == Walk(m, root, look.page)
    ensures RightTag(m', root, look, tag)
  {
    SpecFollowsWalk(m, m', root, look.page, FetchAccess, FetchMode(look.priv));
  }

  /** A tag compare lasts one clock. */
  lemma CompareStarts(ic: IF.IFetch, in_: IF.IIn, block: Line)
    ensures IF.Next(ic, in_, block).0.proc.CompareTag? ==> ic.proc.Idle?
  {
  }

  lemma TranslatesStep(m: Moment, pma: DC.Pmas, root: PpnValue, in_: CoreIn)
    requires Inv(m, pma) && Kept(m, pma, root, in_) && Translates(m, root)
    ensures Translates(Next(m, pma, in_), root)
  {
    TlbsStep(m, pma, root, in_);
    FetchStep(m, pma, root, in_);
    var n := Next(m, pma, in_);
    CompareStarts(m.c.ic, FetchInput(m, pma, in_), in_.block);
    if n.c.ic.proc.CompareTag? { TagKept(m.logical, n.logical, root, n.c.look, n.c.ic.tagAccessing); }
  }

  ghost predicate KeptRun(m: Moment, pma: DC.Pmas, root: PpnValue, ins: seq<CoreIn>)
    decreases |ins|
  {
    ins == [] || (Kept(m, pma, root, ins[0]) && KeptRun(Next(m, pma, ins[0]), pma, root, ins[1..]))
  }

  lemma {:induction false} RunTranslates(m: Moment, pma: DC.Pmas, root: PpnValue, ins: seq<CoreIn>)
    requires Inv(m, pma) && Translates(m, root) && KeptRun(m, pma, root, ins)
    ensures LegalRun(m.c, pma, ins) && Inv(Run(m, pma, ins), pma) && Translates(Run(m, pma, ins), root)
    decreases |ins|
  {
    if ins != [] {
      InvStep(m, pma, ins[0]);
      TranslatesStep(m, pma, root, ins[0]);
      RunTranslates(Next(m, pma, ins[0]), pma, root, ins[1..]);
    }
  }

  // ---- since sfence.vma ----

  /** From power-on: any run, in which tables and satp may change at will; an sfence.vma that
      retires; a run that keeps root and tables as they then are. */
  ghost predicate SinceSfence(c: Core, pma: DC.Pmas, before: seq<CoreIn>, sfence: seq<CoreIn>, since: seq<CoreIn>,
                              root: PpnValue) {
    var b := Run(Start(c), pma, before);
    var f := Run(b, pma, sfence);
    && PowerOn(c) && LegalRun(c, pma, before)
    && b.c.done == CLEAR && SfenceRun(b, pma, root, sfence) && Retires(f.c.done, SfenceVma)
    && KeptRun(f, pma, root, since)
  }

  ghost function Now(c: Core, pma: DC.Pmas, before: seq<CoreIn>, sfence: seq<CoreIn>, since: seq<CoreIn>): Moment {
    Run(Run(Run(Start(c), pma, before), pma, sfence), pma, since)
  }

  lemma FlushedTranslates(m: Moment, root: PpnValue)
    requires LT.Coherent(m.c.s.l, m.logical, root) && NoEntries(m.c.ic.tlb) && m.c.ic.proc.Idle?
    ensures Translates(m, root)
  {
  }

  lemma SinceSfenceTranslates(c: Core, pma: DC.Pmas, before: seq<CoreIn>, sfence: seq<CoreIn>, since: seq<CoreIn>,
                              root: PpnValue)
    requires SinceSfence(c, pma, before, sfence, since, root)
    ensures var n := Now(c, pma, before, sfence, since); Inv(n, pma) && Translates(n, root)
  {
    var b := Run(Start(c), pma, before);
    var f := Run(b, pma, sfence);
    PowerOnInv(c, pma);
    RunInv(Start(c), pma, before);
    RetiresOnlyWhenFlushed(b, pma, root, sfence);
    FlushedTranslates(f, root);
    RunTranslates(f, pma, root, since);
  }

  /** Since the last sfence.vma, every fetch is looked up with the tag section 4.3.2 grants (exactly
      when the leaf is well formed) or raises a page fault where it refuses, every instruction page fault
      is one it raises for the fetch asserted if that is still the fetch that was walked for, and every
      word is delivered with the right tag of the page looked up. */
  lemma FetchesTranslateAsSpecified(c: Core, pma: DC.Pmas, before: seq<CoreIn>, sfence: seq<CoreIn>, since: seq<CoreIn>,
                                    in_: CoreIn)
    requires SinceSfence(c, pma, before, sfence, since, in_.csr.root)
    requires Legal(Now(c, pma, before, sfence, since).c, pma, in_)
    ensures FetchesRight(Now(c, pma, before, sfence, since), pma, in_.csr.root, in_)
  {
    SinceSfenceTranslates(c, pma, before, sfence, since, in_.csr.root);
    FetchStep(Now(c, pma, before, sfence, since), pma, in_.csr.root, in_);
  }

  lemma SameService(l: L.Lsu, a: L.In, b: L.In, l': L.Lsu, out: L.Out, m: Blocks)
    requires a == b.(tlbRead := a.tlbRead) && !a.cmd.NoCmd? && LT.ServedAsSpecified(l, a, l', out, m)
    ensures LT.ServedAsSpecified(l, b, l', out, m)
  {
  }

  /** Since the last sfence.vma, a command is taken, faults or walks as section 4.3.2 says, and with
      translation off is taken as it is, with fetches and their walks in between. */
  lemma CommandsTranslateAsSpecified(c: Core, pma: DC.Pmas, before: seq<CoreIn>, sfence: seq<CoreIn>, since: seq<CoreIn>,
                                     in_: CoreIn)
    requires SinceSfence(c, pma, before, sfence, since, in_.csr.root)
    requires var n := Now(c, pma, before, sfence, since);
             in_.op.DataOp? && !in_.op.cmd.NoCmd? && n.c.s.l.proc.Idle?
    ensures var n := Now(c, pma, before, sfence, since);
            var (c', out) := Step(n.c, pma, in_);
            var asked := L.In(false, false, in_.op.cmd, L.NoRead, in_.csr);
            LT.ServedAsSpecified(n.c.s.l, asked, c'.s.l, out.data, n.logical)
  {
    SinceSfenceTranslates(c, pma, before, sfence, since, in_.csr.root);
    var n := Now(c, pma, before, sfence, since);
    var data := DataIn(n.c.ic, n.c.done, in_);
    LT.ServesAsSpecified(n.c.s, n.logical, pma, data);
    SameService(n.c.s.l, data.core, L.In(false, false, in_.op.cmd, L.NoRead, in_.csr),
                LP.Step(n.c.s, pma, data).0.l, LP.Step(n.c.s, pma, data).1, n.logical);
  }
}

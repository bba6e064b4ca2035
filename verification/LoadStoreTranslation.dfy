/** The load/store unit's TLB and walker against the page tables in memory, and every grant,
    fault and fetch answer against section 4.3.2 of the RISC-V Privileged ISA 1.12. */
module LoadStoreTranslation {
  import opened Words
  import opened Memory
  import opened Paging
  import opened Translation
  import opened Ptw
  import opened LoadStore
  import opened LoadStoreProof
  import DC = DataCache
  import DP = DataCacheProof
  import LR = LoadStoreResults

  ghost predicate TlbCoherent(t: Tlb, m: Blocks, root: PpnValue) {
    forall k | 0 <= k < |t.entries| ::
      t.entries[k].valid ==> Walk(m, root, t.entries[k].tag) == Leaf(t.entries[k].pte, t.entries[k].level)
  }

  /** Where the walk of a page is: at its first or its second table. */
  ghost predicate WalkerCoherent(w: Walker, vpn: Vpn, m: Blocks, root: PpnValue) {
    var p1 := PteAt(m, root, Vpn1(vpn));
    match w.proc
    case WIdle => true
    case WWalk =>
      if w.level == 1 then w.addr == PteAddr(root, Vpn1(vpn)) && w.vpn0 == Vpn0(vpn)
      else w.level == 0 && !IsLeaf(p1, 1) && IsPointer(p1, 1) && w.addr == PteAddr(Ppn(p1), Vpn0(vpn))
    case WCheck =>
      if w.level == 1 then w.pte == p1 && w.vpn0 == Vpn0(vpn)
      else w.level == 0 && !IsLeaf(p1, 1) && IsPointer(p1, 1) && w.pte == PteAt(m, Ppn(p1), Vpn0(vpn))
  }

  /** The run does not change the root, nor, through its stores, what any walk finds. */
  ghost predicate TablesKept(before: Blocks, after: Blocks, root: PpnValue, in_: In) {
    in_.csr.root == root && forall vpn: Vpn :: Walk(after, root, vpn) == Walk(before, root, vpn)
  }

  ghost predicate Coherent(l: Lsu, m: Blocks, root: PpnValue) {
    TlbCoherent(l.tlb, m, root) && (!l.walker.proc.WIdle? ==> WalkerCoherent(l.walker, l.ptwVpn, m, root))
  }

  lemma WalkerReads(w: Walker, vpn: Vpn, rdata: Lanes, m: Blocks, root: PpnValue)
    requires w.proc.WWalk? && WalkerCoherent(w, vpn, m, root) && rdata == BlockLoad(m, w.addr, WordSize)
    ensures WalkerCoherent(w.(proc := WCheck, pte := rdata), vpn, m, root)
  {
    if w.level == 1 {
      assert rdata == PteAt(m, root, Vpn1(vpn));
    } else {
      assert rdata == PteAt(m, Ppn(PteAt(m, root, Vpn1(vpn))), Vpn0(vpn));
    }
  }

  /** A walk that begins, and one that goes down a level. */
  lemma WalkerStarts(w: Walker, vpn: Vpn, m: Blocks, root: PpnValue)
    ensures WalkerCoherent(Walker(WWalk, 1, PteAddr(root, Vpn1(vpn)), Vpn0(vpn), w.pte), vpn, m, root)
  {
  }

  lemma WalkerDescends(w: Walker, vpn: Vpn, m: Blocks, root: PpnValue)
    requires w.proc.WCheck? && WalkerCoherent(w, vpn, m, root) && !IsLeaf(w.pte, w.level) && IsPointer(w.pte, w.level)
    ensures WalkerCoherent(Walker(WWalk, 0, PteAddr(Ppn(w.pte), w.vpn0 % 0x400), 0, w.pte), vpn, m, root)
  {
    assert w.level == 1 && w.vpn0 == Vpn0(vpn) && w.pte == PteAt(m, root, Vpn1(vpn));
    assert w.vpn0 % 0x400 == Vpn0(vpn);
  }

  /** One clock of the walker, over memory that does not change in it. */
  lemma WalkerClock(w: Walker, walk: bool, vpn: Vpn, ready: bool, rdata: Lanes, m: Blocks, root: PpnValue)
    requires WalkerCoherent(w, vpn, m, root)
    requires w.proc.WWalk? && ready ==> rdata == BlockLoad(m, w.addr, WordSize)
    ensures WalkerCoherent(WalkClock(w, walk, root, vpn, ready, rdata), vpn, m, root)
  {
    var w' := WalkClock(w, walk, root, vpn, ready, rdata);
    if w'.proc.WIdle? || w' == w {
    } else if w.proc.WIdle? {
      WalkerStarts(w, vpn, m, root);
    } else if w.proc.WWalk? {
      WalkerReads(w, vpn, rdata, m, root);
    } else {
      WalkerDescends(w, vpn, m, root);
    }
  }

  /** A walk is the unit's only use of memory while it lasts, and keeps its page. */
  lemma WalkAlone(l: Lsu, in_: In, d: DP.Sys, out: DC.Out, before: Blocks, after: Blocks)
    requires Discipline(l, d) && PortMeans(d.pend, out, before, after) && (out.ready ==> !d.pend.NoRequest?)
    requires l.proc.PageTableWalk?
    ensures after == before && Next(l, in_, PortOf(out)).0.ptwVpn == l.ptwVpn
    ensures l.walker.proc.WWalk? && PortOf(out).Done? ==> PortOf(out).rdata == BlockLoad(before, l.walker.addr, WordSize)
  {
  }

  lemma WalkerStep(l: Lsu, in_: In, d: DP.Sys, out: DC.Out, before: Blocks, after: Blocks, root: PpnValue)
    requires Discipline(l, d) && PortMeans(d.pend, out, before, after) && (out.ready ==> !d.pend.NoRequest?)
    requires in_.csr.root == root && (!l.walker.proc.WIdle? ==> WalkerCoherent(l.walker, l.ptwVpn, before, root))
    ensures var l' := Next(l, in_, PortOf(out)).0;
            !l'.walker.proc.WIdle? ==> WalkerCoherent(l'.walker, l'.ptwVpn, after, root)
  {
    if l.proc.PageTableWalk? {
      var port := PortOf(out);
      WalkAlone(l, in_, d, out, before, after);
      WalkerClock(l.walker, true, l.ptwVpn, port.Done?, if port.Done? then port.rdata else ZERO_LANES, before, root);
    }
  }

  /** What the walker delivers is what the two-level walk of the page tables finds. */
  lemma WalkerAnswers(l: Lsu, m: Blocks, root: PpnValue)
    requires l.walker.proc.WCheck? && WalkerCoherent(l.walker, l.ptwVpn, m, root)
    ensures IsLeaf(l.walker.pte, l.walker.level) ==> Walk(m, root, l.ptwVpn) == Leaf(l.walker.pte, l.walker.level)
    ensures !IsLeaf(l.walker.pte, l.walker.level) && !IsPointer(l.walker.pte, l.walker.level)
            ==> Walk(m, root, l.ptwVpn) == NoLeaf
  {
  }

  predicate WalkFinds(l: Lsu) { l.proc.PageTableWalk? && l.walker.proc.WCheck? && IsLeaf(l.walker.pte, l.walker.level) }

  lemma TlbNextWalk(l: Lsu, in_: In, port: Port)
    requires l.proc.PageTableWalk?
    ensures Next(l, in_, port).0.tlb
            == Tick(if WalkFinds(l) then Refill(l.tlb, l.ptwVpn, l.walker.pte, l.walker.level) else l.tlb)
  {
  }

  lemma TlbNextIdle(l: Lsu, in_: In, port: Port)
    requires l.proc.Idle?
    ensures Next(l, in_, port).0.tlb == Tick(l.tlb)
  {
  }

  lemma TlbNextRest(l: Lsu, in_: In, port: Port)
    requires !l.proc.PageTableWalk? && !l.proc.Idle?
    ensures Next(l, in_, port).0.tlb == Tick(if l.proc.FlushTlb? then Flush(l.tlb) else l.tlb)
  {
  }

  /** The three things a clock does to the TLB. */
  lemma TlbNext(l: Lsu, in_: In, port: Port)
    ensures Next(l, in_, port).0.tlb
            == Tick(if l.proc.FlushTlb? then Flush(l.tlb)
                    else if WalkFinds(l) then Refill(l.tlb, l.ptwVpn, l.walker.pte, l.walker.level)
                    else l.tlb)
  {
    if l.proc.PageTableWalk? { TlbNextWalk(l, in_, port); }
    else if l.proc.Idle? { TlbNextIdle(l, in_, port); }
    else { TlbNextRest(l, in_, port); }
  }

  lemma TlbStep(l: Lsu, in_: In, port: Port, before: Blocks, after: Blocks, root: PpnValue)
    requires Coherent(l, before, root) && TablesKept(before, after, root, in_)
    ensures TlbCoherent(Next(l, in_, port).0.tlb, after, root)
  {
    TlbNext(l, in_, port);
    if WalkFinds(l) { WalkerAnswers(l, before, root); }
  }

  lemma CoherentStep(s: Sys, logical: Blocks, pma: DC.Pmas, in_: SysIn, root: PpnValue)
    requires Inv(s, logical, pma) && Legal(s, pma, in_) && Coherent(s.l, logical, root)
    requires TablesKept(logical, After(s, logical, pma, in_), root, in_.core)
    ensures Coherent(Step(s, pma, in_).0.l, After(s, logical, pma, in_), root)
  {
    LegalData(s, logical, pma, in_);
    DP.StepRefines(s.d, logical, pma, DataIn(s, in_));
    var out := DP.Step(s.d, pma, DataIn(s, in_)).1;
    WalkerStep(s.l, in_.core, s.d, out, logical, After(s, logical, pma, in_), root);
    TlbStep(s.l, in_.core, PortOf(out), logical, After(s, logical, pma, in_), root);
  }

  /** Entries that match the same page are equal, so driving several at once drives one value. */
  lemma DuplicatesAgree(t: Tlb, m: Blocks, root: PpnValue, vpn: Vpn, i: nat, j: nat)
    requires TlbCoherent(t, m, root) && i < |t.entries| && j < |t.entries|
    requires Matches(t.entries[i], vpn) && Matches(t.entries[j], vpn)
    ensures t.entries[i] == t.entries[j]
  {
    assert Walk(m, root, vpn) == Leaf(t.entries[i].pte, t.entries[i].level);
    assert Walk(m, root, vpn) == Leaf(t.entries[j].pte, t.entries[j].level);
  }

  // ---- what the core and the fetch unit are told ----

  /** Every lookup that does not miss is the translation the page tables define. */
  lemma LookupIsTranslate(l: Lsu, csr: Csr, va: Addr, kind: AccessKind, m: Blocks)
    requires TlbCoherent(l.tlb, m, csr.root) && Paged(csr)
    ensures match TranslateVa(l.tlb, csr, va, kind)
            case Physical(pa) =>
              Translate(m, csr.root, va.block.tag, kind, csr.mode) == Grant(pa.block.tag)
              && pa == va.(block := BlockId(pa.block.tag, va.block.index))
            case Refused => Translate(m, csr.root, va.block.tag, kind, csr.mode) == PageFault
            case Miss => true
  {
    if TlbHit(l.tlb, va.block.tag) {
      var e := Access(l.tlb, va.block.tag);
      assert Walk(m, csr.root, va.block.tag) == Leaf(e.pte, e.level);
    }
  }

  /** The page whose access a page fault reports: the one asked for, or the one walked for. */
  function FaultingPage(l: Lsu, in_: In): Vpn {
    if l.proc.PageTableWalk? then l.ptwVpn
    else match in_.cmd case DoLoad(va, _, _) => va.block.tag case DoStore(va, _, _, _) => va.block.tag
         case DoAmo(va, _, _) => va.block.tag case NoCmd => 0
  }

  predicate PageFaulting(e: Exception) { e.LoadPageFault? || e.StorePageFault? || e.TlbPageFault? }

  function KindOf(e: Exception): AccessKind {
    match e case LoadPageFault => LoadAccess case StorePageFault => StoreAccess case _ => FetchAccess
  }

  /** A fault raised in this clock is one the page tables call for. */
  ghost predicate Justified(l: Lsu, in_: In, fault: Exception, m: Blocks) {
    PageFaulting(fault) ==>
      Translate(m, in_.csr.root, FaultingPage(l, in_), KindOf(fault), in_.csr.mode) == PageFault
  }

  lemma WalkFaultJustified(l: Lsu, in_: In, port: Port, m: Blocks)
    requires l.proc.PageTableWalk? && Coherent(l, m, in_.csr.root)
    ensures Justified(l, in_, Next(l, in_, port).1.fault, m)
  {
    if l.walker.proc.WCheck? { WalkerAnswers(l, m, in_.csr.root); }
  }

  lemma IdleFaultJustified(l: Lsu, in_: In, port: Port, m: Blocks)
    requires l.proc.Idle? && TlbCoherent(l.tlb, m, in_.csr.root)
    ensures Justified(l, in_, Next(l, in_, port).1.fault, m)
  {
    if Paged(in_.csr) {
      match in_.cmd
      case DoLoad(va, _, _) => LookupIsTranslate(l, in_.csr, va, LoadAccess, m);
      case DoStore(va, _, _, _) => LookupIsTranslate(l, in_.csr, va, StoreAccess, m);
      case DoAmo(va, _, _) => LookupIsTranslate(l, in_.csr, va, StoreAccess, m);
      case NoCmd =>
    }
  }

  /** A page fault is raised only for an access the page tables refuse in the current mode. */
  lemma FaultsAreRefusals(l: Lsu, in_: In, port: Port, m: Blocks)
    requires Coherent(l, m, in_.csr.root)
    ensures Justified(l, in_, Next(l, in_, port).1.fault, m)
  {
    if l.proc.PageTableWalk? { WalkFaultJustified(l, in_, port, m); }
    else if l.proc.Idle? { IdleFaultJustified(l, in_, port, m); }
  }

  // ---- a command when it is taken ----

  function VaOf(cmd: Cmd): Addr
    requires !cmd.NoCmd?
  {
    cmd.va
  }

  function KindOfCmd(cmd: Cmd): AccessKind { if cmd.DoLoad? then LoadAccess else StoreAccess }

  /** What the cache is asked first for a command at a physical address. */
  function FirstRequest(cmd: Cmd, pa: Addr): Request {
    match cmd
    case DoLoad(_, size, _) => Load(pa, size)
    case DoStore(_, size, data, _) => Store(pa, size, data)
    case DoAmo(_, _, _) => Load(pa, WordSize)
    case NoCmd => NoRequest
  }

  /** The TLB holds an entry for a page. */
  ghost predicate Cached(t: Tlb, vpn: Vpn) {
    exists k :: 0 <= k < |t.entries| && t.entries[k].valid && t.entries[k].tag == vpn
  }

  lemma CachedHits(t: Tlb, vpn: Vpn)
    ensures Cached(t, vpn) <==> TlbHit(t, vpn)
  {
    if TlbHit(t, vpn) { assert Matches(t.entries[FirstMatch(t.entries, vpn)], vpn); }
    else { assert forall k | 0 <= k < |t.entries| :: !Matches(t.entries[k], vpn); }
  }

  /** The page fault a command raises. */
  function PageFaultOf(cmd: Cmd): Exception { if cmd.DoLoad? then LoadPageFault else StorePageFault }

  /** The clock in which a command is served with translation on. If its page is in the TLB, it is taken,
      and the cache is asked for the page offset of the virtual address in the page section 4.3.2 grants,
      exactly when the leaf is well formed; or section 4.3.2 refuses it, and it raises its page fault.
      Otherwise nothing is raised. When it is not taken its page is walked. */
  ghost predicate ServedRight(l: Lsu, in_: In, l': Lsu, out: Out, m: Blocks)
    requires !in_.cmd.NoCmd?
  {
    var va := VaOf(in_.cmd);
    var spec := SpecTranslate(m, in_.csr.root, va.block.tag, KindOfCmd(in_.cmd), in_.csr.mode);
    match Accepted(l, in_)
    case Doing(cmd, pa) =>
      && cmd == in_.cmd && pa == va.(block := BlockId(pa.block.tag, va.block.index))
      && Cached(l.tlb, va.block.tag)
      && (spec == Grant(pa.block.tag) <==> WellFormedLeaf(Walk(m, in_.csr.root, va.block.tag)))
      && RequestOf(l') == (if out.ready then NoRequest else FirstRequest(cmd, pa))
      && out.fault.NoFault?
    case NoJob =>
      && (if Cached(l.tlb, va.block.tag) then spec == PageFault && out.fault == PageFaultOf(in_.cmd) else out.fault.NoFault?)
      && !out.ready && RequestOf(l').NoRequest? && l'.proc.PageTableWalk? && l'.ptwVpn == va.block.tag
  }

  /** With translation off: taken at the address it names, without a walk or a fault. */
  ghost predicate ServedPlainly(l: Lsu, in_: In, l': Lsu, out: Out)
    requires !in_.cmd.NoCmd?
  {
    && Accepted(l, in_) == Doing(in_.cmd, VaOf(in_.cmd)) && out.fault.NoFault? && !l'.proc.PageTableWalk?
    && RequestOf(l') == (if out.ready then NoRequest else FirstRequest(in_.cmd, VaOf(in_.cmd)))
  }

  /** A lookup that answers, against section 4.3.2. */
  lemma LookupAsSpecified(l: Lsu, csr: Csr, va: Addr, kind: AccessKind, m: Blocks)
    requires TlbCoherent(l.tlb, m, csr.root) && Paged(csr)
    ensures var spec := SpecTranslate(m, csr.root, va.block.tag, kind, csr.mode);
            match TranslateVa(l.tlb, csr, va, kind)
            case Physical(pa) =>
              && pa == va.(block := BlockId(pa.block.tag, va.block.index))
              && (spec == Grant(pa.block.tag) <==> WellFormedLeaf(Walk(m, csr.root, va.block.tag)))
            case Refused => spec == PageFault
            case Miss => true
  {
    LookupIsTranslate(l, csr, va, kind, m);
    TranslatesAsSpecified(m, csr.root, va.block.tag, kind, csr.mode);
    if TranslateVa(l.tlb, csr, va, kind).Physical? { GrantsAreAllowed(l.tlb, csr, va, kind, m); }
  }

  lemma ServesRight(l: Lsu, in_: In, port: Port, m: Blocks)
    requires l.proc.Idle? && l.walker.proc.WIdle? && l.amoPhase.AmoRead? && TlbCoherent(l.tlb, m, in_.csr.root)
    requires !in_.cacheFlush && !in_.tlbFlush && !in_.cmd.NoCmd? && !port.Fault?
    requires in_.csr.paging && !in_.csr.mode.priv.Machine?
    ensures var (l', out) := Next(l, in_, port); ServedRight(l, in_, l', out, m)
  {
    LookupAsSpecified(l, in_.csr, VaOf(in_.cmd), KindOfCmd(in_.cmd), m);
    CachedHits(l.tlb, VaOf(in_.cmd).block.tag);
    match TranslateVa(l.tlb, in_.csr, VaOf(in_.cmd), KindOfCmd(in_.cmd))
    case Physical(pa) => TakesThus(l, in_, port, pa);
    case _ => WalksThus(l, in_, port);
  }

  lemma ServesPlainly(l: Lsu, in_: In, port: Port)
    requires l.proc.Idle? && l.walker.proc.WIdle? && l.amoPhase.AmoRead?
    requires !in_.cacheFlush && !in_.tlbFlush && !in_.cmd.NoCmd? && !port.Fault?
    requires !in_.csr.paging || in_.csr.mode.priv.Machine?
    ensures var (l', out) := Next(l, in_, port); ServedPlainly(l, in_, l', out)
  {
    TakesThus(l, in_, port, VaOf(in_.cmd));
  }

  /** A clock in which a command is served, whatever the mode. */
  ghost predicate ServedAsSpecified(l: Lsu, in_: In, l': Lsu, out: Out, m: Blocks)
    requires !in_.cmd.NoCmd?
  {
    if in_.csr.paging && !in_.csr.mode.priv.Machine? then ServedRight(l, in_, l', out, m) else ServedPlainly(l, in_, l', out)
  }

  /** An idle unit's cache port is silent. */
  lemma IdlePort(s: Sys, logical: Blocks, pma: DC.Pmas, in_: SysIn)
    requires Inv(s, logical, pma) && s.l.proc.Idle?
    ensures !PortAt(s, pma, in_).Fault?
  {
    CacheFaultIsEmpty(s.d, pma, DataIn(s, in_));
  }

  lemma ServesAsSpecified(s: Sys, logical: Blocks, pma: DC.Pmas, in_: SysIn)
    requires Inv(s, logical, pma) && TlbCoherent(s.l.tlb, logical, in_.core.csr.root)
    requires s.l.proc.Idle? && !in_.core.cacheFlush && !in_.core.tlbFlush && !in_.core.cmd.NoCmd?
    ensures var (s', out) := Step(s, pma, in_); ServedAsSpecified(s.l, in_.core, s'.l, out, logical)
  {
    IdlePort(s, logical, pma, in_);
    if in_.core.csr.paging && !in_.core.csr.mode.priv.Machine? {
      ServesRight(s.l, in_.core, PortAt(s, pma, in_), logical);
    } else {
      ServesPlainly(s.l, in_.core, PortAt(s, pma, in_));
    }
  }

  lemma GrantsAreAllowed(t: Tlb, csr: Csr, va: Addr, kind: AccessKind, m: Blocks)
    requires TlbCoherent(t, m, csr.root) && Paged(csr) && TranslateVa(t, csr, va, kind).Physical?
    ensures var w := Walk(m, csr.root, va.block.tag); w.Leaf? && Allowed(kind, w.pte, csr.mode)
  {
    assert Access(t, va.block.tag) in t.entries;
  }

  /** The unit's side of serving a command whose page translates. */
  lemma TakesThus(l: Lsu, in_: In, port: Port, pa: Addr)
    requires Serves(l, in_) && !in_.cmd.NoCmd? && l.walker.proc.WIdle? && l.amoPhase.AmoRead? && !port.Fault?
    requires TranslateVa(l.tlb, in_.csr, VaOf(in_.cmd), KindOfCmd(in_.cmd)) == Physical(pa)
    ensures var (l', out) := Next(l, in_, port);
            && Accepted(l, in_) == Doing(in_.cmd, pa) && out.fault.NoFault? && !l'.proc.PageTableWalk?
            && RequestOf(l') == (if out.ready then NoRequest else FirstRequest(in_.cmd, pa))
  {
  }

  /** ... and of one whose page does not. */
  lemma WalksThus(l: Lsu, in_: In, port: Port)
    requires Serves(l, in_) && !in_.cmd.NoCmd? && l.walker.proc.WIdle? && !port.Fault?
    requires !TranslateVa(l.tlb, in_.csr, VaOf(in_.cmd), KindOfCmd(in_.cmd)).Physical?
    ensures var (l', out) := Next(l, in_, port);
            && Accepted(l, in_).NoJob? && !out.ready && RequestOf(l').NoRequest?
            && l'.proc.PageTableWalk? && l'.ptwVpn == VaOf(in_.cmd).block.tag
            && out.fault == if TranslateVa(l.tlb, in_.csr, VaOf(in_.cmd), KindOfCmd(in_.cmd)).Refused?
                            then PageFaultOf(in_.cmd) else NoFault
  {
  }

  // ---- whole runs ----

  /** A clock of the TLB flush leaves nothing that any page tables could contradict. */
  lemma FlushRestores(s: Sys, logical: Blocks, pma: DC.Pmas, in_: SysIn, m: Blocks, root: PpnValue)
    requires Inv(s, logical, pma) && s.l.proc.FlushTlb?
    ensures Coherent(Step(s, pma, in_).0.l, m, root)
  {
    TlbNext(s.l, in_.core, PortAt(s, pma, in_));
  }

  /** The run keeps the root and what the page tables say. */
  ghost predicate KeptRun(s: Sys, logical: Blocks, pma: DC.Pmas, root: PpnValue, ins: seq<SysIn>)
    decreases |ins|
  {
    ins == [] || (
      && Legal(s, pma, ins[0]) && TablesKept(logical, After(s, logical, pma, ins[0]), root, ins[0].core)
      && KeptRun(Step(s, pma, ins[0]).0, After(s, logical, pma, ins[0]), pma, root, ins[1..]))
  }

  lemma {:induction false} RunCoherent(s: Sys, logical: Blocks, pma: DC.Pmas, root: PpnValue, ins: seq<SysIn>)
    requires Inv(s, logical, pma) && Coherent(s.l, logical, root) && KeptRun(s, logical, pma, root, ins)
    ensures var e, now := LR.RunTo(s, pma, ins), LR.LogicalTo(s, logical, pma, ins);
            Inv(e, now, pma) && Coherent(e.l, now, root)
    decreases |ins|
  {
    if ins != [] {
      InvStep(s, logical, pma, ins[0]);
      CoherentStep(s, logical, pma, ins[0], root);
      RunCoherent(Step(s, pma, ins[0]).0, After(s, logical, pma, ins[0]), pma, root, ins[1..]);
    }
  }

  /** The unit and logical memory when a run has ended. */
  datatype Moment = Moment(s: Sys, logical: Blocks)

  ghost function At(s: Sys, logical: Blocks, pma: DC.Pmas, ins: seq<SysIn>): Moment {
    Moment(LR.RunTo(s, pma, ins), LR.LogicalTo(s, logical, pma, ins))
  }

  /** Any run from power-on that ends with a clock of the TLB flush, then one that keeps the tables
      as they were at its end. */
  ghost predicate SinceFlush(s: Sys, pma: DC.Pmas, before: seq<SysIn>, flush: SysIn, since: seq<SysIn>, root: PpnValue) {
    var b := At(s, s.d.mem, pma, before);
    var f := At(b.s, b.logical, pma, [flush]);
    && LR.PowerOn(s) && LR.LegalRun(s, pma, before) && b.s.l.proc.FlushTlb? && Legal(b.s, pma, flush)
    && KeptRun(f.s, f.logical, pma, root, since)
  }

  ghost function Now(s: Sys, pma: DC.Pmas, before: seq<SysIn>, flush: SysIn, since: seq<SysIn>): Moment {
    var b := At(s, s.d.mem, pma, before);
    var f := At(b.s, b.logical, pma, [flush]);
    At(f.s, f.logical, pma, since)
  }

  lemma FlushClock(s: Sys, logical: Blocks, pma: DC.Pmas, flush: SysIn, root: PpnValue)
    requires Inv(s, logical, pma) && s.l.proc.FlushTlb? && Legal(s, pma, flush)
    ensures var f := At(s, logical, pma, [flush]); Inv(f.s, f.logical, pma) && Coherent(f.s.l, f.logical, root)
  {
    var after := After(s, logical, pma, flush);
    InvStep(s, logical, pma, flush);
    FlushRestores(s, logical, pma, flush, after, root);
    var s' := Step(s, pma, flush).0;
    assert [flush][1..] == [] && LR.RunTo(s', pma, []) == s' && LR.LogicalTo(s', after, pma, []) == after;
    assert At(s, logical, pma, [flush]) == Moment(s', after);
  }

  lemma SinceFlushCoherent(s: Sys, pma: DC.Pmas, before: seq<SysIn>, flush: SysIn, since: seq<SysIn>, root: PpnValue)
    requires SinceFlush(s, pma, before, flush, since, root)
    ensures var n := Now(s, pma, before, flush, since); Inv(n.s, n.logical, pma) && Coherent(n.s.l, n.logical, root)
  {
    LR.PowerOnInv(s, pma);
    LR.RunAtomic(s, s.d.mem, pma, before);
    var b := At(s, s.d.mem, pma, before);
    FlushClock(b.s, b.logical, pma, flush, root);
    var f := At(b.s, b.logical, pma, [flush]);
    RunCoherent(f.s, f.logical, pma, root, since);
  }

  /** After any run whatever and a TLB flush, while satp and the tables stay as they are: with
      translation on, a command is taken at the page section 4.3.2 grants on the tables in memory
      (exactly when the leaf is well formed), and that address is what the cache is asked for; or
      section 4.3.2 refuses it and it faults; or it waits for a walk. With translation off it is taken
      at the address it names. */
  lemma AccessesTranslateAsSpecified(s: Sys, pma: DC.Pmas, before: seq<SysIn>, flush: SysIn, since: seq<SysIn>, in_: SysIn)
    requires SinceFlush(s, pma, before, flush, since, in_.core.csr.root)
    requires Now(s, pma, before, flush, since).s.l.proc.Idle?
    requires !in_.core.cacheFlush && !in_.core.tlbFlush && !in_.core.cmd.NoCmd?
    ensures var n := Now(s, pma, before, flush, since);
            var (s', out) := Step(n.s, pma, in_);
            ServedAsSpecified(n.s.l, in_.core, s'.l, out, n.logical)
  {
    SinceFlushCoherent(s, pma, before, flush, since, in_.core.csr.root);
    var n := Now(s, pma, before, flush, since);
    ServesAsSpecified(n.s, n.logical, pma, in_);
  }

  /** And every page fault it raises, at a lookup or at the end of a walk, is one section 4.3.2
      raises for that page. */
  lemma FaultsAsSpecified(s: Sys, pma: DC.Pmas, before: seq<SysIn>, flush: SysIn, since: seq<SysIn>, in_: SysIn)
    requires SinceFlush(s, pma, before, flush, since, in_.core.csr.root) && !in_.core.csr.mode.priv.Machine?
    ensures var n := Now(s, pma, before, flush, since);
            var out := Step(n.s, pma, in_).1;
            PageFaulting(out.fault) ==>
              SpecTranslate(n.logical, in_.core.csr.root, FaultingPage(n.s.l, in_.core), KindOf(out.fault),
                            in_.core.csr.mode) == PageFault
  {
    SinceFlushCoherent(s, pma, before, flush, since, in_.core.csr.root);
    var n := Now(s, pma, before, flush, since);
    var out := Step(n.s, pma, in_).1;
    FaultsAreRefusals(n.s.l, in_.core, PortAt(n.s, pma, in_), n.logical);
    TranslatesAsSpecified(n.logical, in_.core.csr.root, FaultingPage(n.s.l, in_.core), KindOf(out.fault), in_.core.csr.mode);
  }

  // ---- whose fault it is ----

  /** The command the core must go on asserting after a clock: one that was neither answered nor faulted. */
  function HeldAfter(in_: In, out: Out): Cmd {
    if !in_.cmd.NoCmd? && !out.ready && out.fault.NoFault? then in_.cmd else NoCmd
  }

  predicate Holds(held: Cmd, in_: In) { !held.NoCmd? ==> in_.cmd == held }

  predicate MatchesWalk(why: WalkFor, cmd: Cmd) {
    match why
    case ForFetch => false
    case ForLoad => cmd.DoLoad?
    case ForStore => cmd.DoStore? || cmd.DoAmo?
  }

  /** A walk for a command is for the one still held, which missed; or its page has a leaf, because a
      lookup that found it was refused, and the fault has been raised. */
  ghost predicate WalkIsFor(l: Lsu, held: Cmd, m: Blocks, root: PpnValue) {
    l.proc.PageTableWalk? && !l.ptwFor.ForFetch? ==>
      (MatchesWalk(l.ptwFor, held) && VaOf(held).block.tag == l.ptwVpn) || Walk(m, root, l.ptwVpn).Leaf?
  }

  lemma WalkBegins(l: Lsu, in_: In, port: Port, m: Blocks, root: PpnValue)
    requires l.proc.Idle? && TlbCoherent(l.tlb, m, root) && !port.Fault?
    ensures var (l', out) := Next(l, in_, port); WalkIsFor(l', HeldAfter(in_, out), m, root)
  {
    if Serves(l, in_) && !in_.cmd.NoCmd? {
      var va, kind := VaOf(in_.cmd), KindOfCmd(in_.cmd);
      if TranslateVa(l.tlb, in_.csr, va, kind).Refused? {
        var e := Access(l.tlb, va.block.tag);
        assert Walk(m, root, va.block.tag) == Leaf(e.pte, e.level);
      }
    }
  }

  lemma WalkGoesOn(l: Lsu, held: Cmd, in_: In, port: Port, m: Blocks, root: PpnValue)
    requires !l.proc.Idle? && WalkIsFor(l, held, m, root) && Holds(held, in_)
    ensures var (l', out) := Next(l, in_, port); WalkIsFor(l', HeldAfter(in_, out), m, root)
  {
  }

  /** A page fault of a command, in a clock: it is the asserted command's own. */
  ghost predicate FaultIsOwn(in_: In, fault: Exception, m: Blocks) {
    fault.LoadPageFault? || fault.StorePageFault? ==>
      && !in_.cmd.NoCmd? && KindOf(fault) == KindOfCmd(in_.cmd)
      && SpecTranslate(m, in_.csr.root, VaOf(in_.cmd).block.tag, KindOfCmd(in_.cmd), in_.csr.mode) == PageFault
  }

  lemma WalkFaultIsOwn(l: Lsu, held: Cmd, in_: In, port: Port, m: Blocks)
    requires l.proc.PageTableWalk? && Coherent(l, m, in_.csr.root) && WalkIsFor(l, held, m, in_.csr.root) && Holds(held, in_)
    requires !port.Fault?
    ensures FaultIsOwn(in_, Next(l, in_, port).1.fault, m)
  {
    if l.walker.proc.WCheck? {
      WalkerAnswers(l, m, in_.csr.root);
      WalksAgree(m, in_.csr.root, l.ptwVpn);
    }
  }

  lemma LookupFaultIsOwn(l: Lsu, in_: In, port: Port, m: Blocks)
    requires l.proc.Idle? && TlbCoherent(l.tlb, m, in_.csr.root) && !port.Fault?
    ensures FaultIsOwn(in_, Next(l, in_, port).1.fault, m)
  {
    if Serves(l, in_) && !in_.cmd.NoCmd? && Paged(in_.csr) {
      LookupAsSpecified(l, in_.csr, VaOf(in_.cmd), KindOfCmd(in_.cmd), m);
    }
  }

  lemma OtherFaults(l: Lsu, in_: In, port: Port)
    requires !l.proc.Idle? && !l.proc.PageTableWalk?
    ensures !PageFaulting(Next(l, in_, port).1.fault)
  {
  }

  /** No fault of the cache reaches an idle or walking unit while tables are in existing memory. */
  lemma NoPortFault(s: Sys, logical: Blocks, pma: DC.Pmas, in_: SysIn)
    requires Inv(s, logical, pma) && Legal(s, pma, in_) && (s.l.proc.Idle? || s.l.proc.PageTableWalk?)
    ensures !PortAt(s, pma, in_).Fault?
  {
    CacheFaultIsEmpty(s.d, pma, DataIn(s, in_));
  }

  lemma OwnStep(s: Sys, logical: Blocks, pma: DC.Pmas, in_: SysIn, held: Cmd, root: PpnValue)
    requires Inv(s, logical, pma) && Legal(s, pma, in_) && Coherent(s.l, logical, root)
    requires TablesKept(logical, After(s, logical, pma, in_), root, in_.core)
    requires WalkIsFor(s.l, held, logical, root) && Holds(held, in_.core)
    ensures var (s', out) := Step(s, pma, in_);
            && FaultIsOwn(in_.core, out.fault, logical)
            && WalkIsFor(s'.l, HeldAfter(in_.core, out), After(s, logical, pma, in_), root)
  {
    var port := PortAt(s, pma, in_);
    OwnFault(Moment(s, logical), pma, in_, held);
    if s.l.proc.Idle? {
      NoPortFault(s, logical, pma, in_);
      WalkBegins(s.l, in_.core, port, logical, root);
    } else {
      WalkGoesOn(s.l, held, in_.core, port, logical, root);
    }
  }

  /** The core holds each command until it is answered or faults. */
  ghost predicate HeldRun(s: Sys, pma: DC.Pmas, held: Cmd, ins: seq<SysIn>)
    decreases |ins|
  {
    ins == [] || (Holds(held, ins[0].core)
                  && HeldRun(Step(s, pma, ins[0]).0, pma, HeldAfter(ins[0].core, Step(s, pma, ins[0]).1), ins[1..]))
  }

  ghost function HeldTo(s: Sys, pma: DC.Pmas, held: Cmd, ins: seq<SysIn>): Cmd
    decreases |ins|
  {
    if ins == [] then held
    else HeldTo(Step(s, pma, ins[0]).0, pma, HeldAfter(ins[0].core, Step(s, pma, ins[0]).1), ins[1..])
  }

  lemma {:induction false} RunOwn(s: Sys, logical: Blocks, pma: DC.Pmas, root: PpnValue, held: Cmd, ins: seq<SysIn>)
    requires Inv(s, logical, pma) && Coherent(s.l, logical, root) && WalkIsFor(s.l, held, logical, root)
    requires KeptRun(s, logical, pma, root, ins) && HeldRun(s, pma, held, ins)
    ensures WalkIsFor(LR.RunTo(s, pma, ins).l, HeldTo(s, pma, held, ins), LR.LogicalTo(s, logical, pma, ins), root)
    decreases |ins|
  {
    if ins != [] {
      var (s', out) := Step(s, pma, ins[0]);
      OwnStep(s, logical, pma, ins[0], held, root);
      InvStep(s, logical, pma, ins[0]);
      CoherentStep(s, logical, pma, ins[0], root);
      RunOwn(s', After(s, logical, pma, ins[0]), pma, root, HeldAfter(ins[0].core, out), ins[1..]);
    }
  }

  lemma FlushedOwn(s: Sys, logical: Blocks, pma: DC.Pmas, flush: SysIn, root: PpnValue)
    requires s.l.proc.FlushTlb?
    ensures var f := At(s, logical, pma, [flush]); WalkIsFor(f.s.l, NoCmd, f.logical, root)
  {
    var s', after := Step(s, pma, flush).0, After(s, logical, pma, flush);
    assert [flush][1..] == [] && LR.RunTo(s', pma, []) == s' && LR.LogicalTo(s', after, pma, []) == after;
    assert s'.l.proc.Idle?;
  }

  /** Since the last TLB flush, for commands held until answered or faulted: every load or store page
      fault is the fault of the command then asserted, one section 4.3.2 raises for its page, kind and
      mode; so a walk begun by a refused lookup raises no second one. */
  lemma FaultsAreOwn(s: Sys, pma: DC.Pmas, before: seq<SysIn>, flush: SysIn, since: seq<SysIn>, in_: SysIn)
    requires SinceFlush(s, pma, before, flush, since, in_.core.csr.root)
    requires var b := At(s, s.d.mem, pma, before); var f := At(b.s, b.logical, pma, [flush]);
             HeldRun(f.s, pma, NoCmd, since) && Holds(HeldTo(f.s, pma, NoCmd, since), in_.core)
    requires Legal(Now(s, pma, before, flush, since).s, pma, in_)
    ensures var n := Now(s, pma, before, flush, since);
            FaultIsOwn(in_.core, Step(n.s, pma, in_).1.fault, n.logical)
  {
    var root := in_.core.csr.root;
    var b := At(s, s.d.mem, pma, before);
    var f := At(b.s, b.logical, pma, [flush]);
    LR.PowerOnInv(s, pma);
    LR.RunAtomic(s, s.d.mem, pma, before);
    FlushClock(b.s, b.logical, pma, flush, root);
    FlushedOwn(b.s, b.logical, pma, flush, root);
    RunOwn(f.s, f.logical, pma, root, NoCmd, since);
    SinceFlushCoherent(s, pma, before, flush, since, root);
    OwnFault(Now(s, pma, before, flush, since), pma, in_, HeldTo(f.s, pma, NoCmd, since));
  }

  lemma OwnFault(n: Moment, pma: DC.Pmas, in_: SysIn, held: Cmd)
    requires Inv(n.s, n.logical, pma) && Legal(n.s, pma, in_) && Coherent(n.s.l, n.logical, in_.core.csr.root)
    requires WalkIsFor(n.s.l, held, n.logical, in_.core.csr.root) && Holds(held, in_.core)
    ensures FaultIsOwn(in_.core, Step(n.s, pma, in_).1.fault, n.logical)
  {
    var port := PortAt(n.s, pma, in_);
    if n.s.l.proc.Idle? {
      NoPortFault(n.s, n.logical, pma, in_);
      LookupFaultIsOwn(n.s.l, in_.core, port, n.logical);
    } else if n.s.l.proc.PageTableWalk? {
      NoPortFault(n.s, n.logical, pma, in_);
      WalkFaultIsOwn(n.s.l, held, in_.core, port, n.logical);
    } else {
      OtherFaults(n.s.l, in_.core, port);
    }
  }
}

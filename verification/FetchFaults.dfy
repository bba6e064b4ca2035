/** When an instruction page fault at the end of a walk is the fault of the fetch that takes it. */
module FetchFaults {
  import opened Words
  import opened Memory
  import opened Paging
  import opened Translation
  import opened Core
  import opened FetchTranslation
  import L = LoadStore
  import LP = LoadStoreProof
  import LR = LoadStoreResults
  import DC = DataCache
  import DP = DataCacheProof
  import IF = IFetch
  import IP = IFetchProof
  import Ptw

  // ---- tables that map one page ----

  const POINTER_0 := Lanes(0, 0, 0, 1)
  const POINTER_1 := Lanes(0, 0, 4, 1)

  /** Valid, readable, executable and accessed, and for user pages the U bit. */
  function LeafFor(priv: Priv): Lanes { Lanes(0, 0, 0, if priv.User? then 91 else 75) }

  /** A table page that is not the root's. */
  function Elsewhere(root: PpnValue): PpnValue { if root % 0x10_0000 == 0 then 1 else 0 }
  function PointerFor(root: PpnValue): Lanes { if root % 0x10_0000 == 0 then POINTER_1 else POINTER_0 }

  ghost function Nowhere(): Blocks { IP.Around(BlockId(0, 0), ZERO_LINE, ZERO_LANES) }

  lemma NowhereIsZero(b: BlockId, k: Offset)
    ensures Nowhere()[b][k] == ZERO_LANES
  {
  }

  /** Page tables in which `page` has a leaf and no other page has one. */
  ghost function Mapping(root: PpnValue, page: Vpn, priv: Priv): Blocks {
    BlockStore(BlockStore(Nowhere(), PteAddr(root, Vpn1(page)), WordSize, PointerFor(root)),
               PteAddr(Elsewhere(root), Vpn0(page)), WordSize, LeafFor(priv))
  }

  lemma WordStored(m: Blocks, a: Addr, w: Lanes, c: Addr)
    requires a.byte == 0 && c.byte == 0
    ensures BlockLoad(BlockStore(m, a, WordSize, w), c, WordSize)
            == if c.block == a.block && c.word == a.word then w else BlockLoad(m, c, WordSize)
  {
  }

  lemma SamePte(p: PpnValue, k: nat, q: PpnValue, j: nat)
    requires k < 0x400 && j < 0x400
    ensures PteAddr(p, k) == PteAddr(q, j) <==> p % 0x10_0000 == q % 0x10_0000 && k == j
  {
    assert k == 4 * (k / 4) + k % 4 && j == 4 * (j / 4) + j % 4;
  }

  lemma MappingEntries(root: PpnValue, page: Vpn, priv: Priv, k: nat)
    requires k < 0x400
    ensures var m := Mapping(root, page, priv);
            && PteAt(m, root, k) == (if k == Vpn1(page) then PointerFor(root) else ZERO_LANES)
            && PteAt(m, Elsewhere(root), k) == (if k == Vpn0(page) then LeafFor(priv) else ZERO_LANES)
  {
    var a, b := PteAddr(root, Vpn1(page)), PteAddr(Elsewhere(root), Vpn0(page));
    var m1 := BlockStore(Nowhere(), a, WordSize, PointerFor(root));
    SamePte(root, k, root, Vpn1(page));
    SamePte(root, k, Elsewhere(root), Vpn0(page));
    SamePte(Elsewhere(root), k, root, Vpn1(page));
    SamePte(Elsewhere(root), k, Elsewhere(root), Vpn0(page));
    WordStored(Nowhere(), a, PointerFor(root), PteAddr(root, k));
    WordStored(m1, b, LeafFor(priv), PteAddr(root, k));
    WordStored(Nowhere(), a, PointerFor(root), PteAddr(Elsewhere(root), k));
    WordStored(m1, b, LeafFor(priv), PteAddr(Elsewhere(root), k));
    NowhereIsZero(PteAddr(root, k).block, PteAddr(root, k).word);
    NowhereIsZero(PteAddr(Elsewhere(root), k).block, PteAddr(Elsewhere(root), k).word);
  }

  /** A pointer to the next table, and a leaf that a fetch at this level may use. */
  predicate IsTable(p: Lanes) { V(p) && !R(p) && !W(p) && !X(p) }
  predicate IsCode(q: Lanes, priv: Priv) { V(q) && R(q) && !W(q) && X(q) && A(q) && (U(q) <==> priv.User?) }

  lemma PointerBits(root: PpnValue)
    ensures IsTable(PointerFor(root)) && Ppn(PointerFor(root)) == Elsewhere(root)
  {
  }

  lemma UserLeafBits()
    ensures IsCode(LeafFor(User), User)
  {
    assert LeafFor(User).b0 == 91;
    assert 91 / 2 == 45 && 91 / 4 == 22 && 91 / 8 == 11 && 91 / 16 == 5 && 91 / 64 == 1;
  }

  lemma SupervisorLeafBits()
    ensures IsCode(LeafFor(Supervisor), Supervisor)
  {
    assert LeafFor(Supervisor).b0 == 75;
    assert 75 / 2 == 37 && 75 / 4 == 18 && 75 / 8 == 9 && 75 / 16 == 4 && 75 / 64 == 1;
  }

  lemma ZeroBits()
    ensures !V(ZERO_LANES)
  {
  }

  lemma SamePage(v: Vpn, w: Vpn)
    ensures v == w <==> Vpn1(v) == Vpn1(w) && Vpn0(v) == Vpn0(w)
  {
  }

  lemma TwoLevels(m: Blocks, root: PpnValue, page: Vpn)
    requires IsTable(PteAt(m, root, Vpn1(page)))
    ensures var q := PteAt(m, Ppn(PteAt(m, root, Vpn1(page))), Vpn0(page));
            && SpecWalk(m, root, page, 1) == (if !V(q) || (!R(q) && W(q)) || (!R(q) && !X(q)) then NoLeaf else Leaf(q, 0))
            && (!V(q) ==> Walk(m, root, page) == NoLeaf)
  {
    var p := PteAt(m, root, Vpn1(page));
    assert SpecWalk(m, root, page, 1) == SpecWalk(m, Ppn(p), page, 0);
  }

  lemma CodeGrants(q: Lanes, page: Vpn, priv: Priv)
    requires IsCode(q, priv) && !priv.Machine?
    ensures SpecGranted(Leaf(q, 0), page, FetchAccess, FetchMode(priv)).Grant?
  {
  }

  lemma NoEntryNoLeaf(m: Blocks, root: PpnValue, page: Vpn)
    requires !V(PteAt(m, root, Vpn1(page)))
    ensures Walk(m, root, page) == NoLeaf
  {
  }

  lemma MappedIsGranted(root: PpnValue, page: Vpn, priv: Priv)
    requires !priv.Machine?
    ensures SpecTranslate(Mapping(root, page, priv), root, page, FetchAccess, FetchMode(priv)).Grant?
  {
    var m := Mapping(root, page, priv);
    if priv.User? { UserLeafBits(); } else { SupervisorLeafBits(); }
    PointerBits(root);
    MappingEntries(root, page, priv, Vpn1(page));
    MappingEntries(root, page, priv, Vpn0(page));
    TwoLevels(m, root, page);
    CodeGrants(LeafFor(priv), page, priv);
  }

  lemma OthersHaveNoLeaf(root: PpnValue, page: Vpn, priv: Priv, other: Vpn)
    requires other != page
    ensures Walk(Mapping(root, page, priv), root, other) == NoLeaf
  {
    var m := Mapping(root, page, priv);
    ZeroBits();
    MappingEntries(root, page, priv, Vpn1(other));
    MappingEntries(root, page, priv, Vpn0(other));
    SamePage(page, other);
    if Vpn1(other) == Vpn1(page) {
      PointerBits(root);
      TwoLevels(m, root, other);
    } else {
      NoEntryNoLeaf(m, root, other);
    }
  }

  lemma NowhereMaps(root: PpnValue, vpn: Vpn)
    ensures Walk(Nowhere(), root, vpn) == NoLeaf
  {
    NowhereIsZero(PteAddr(root, Vpn1(vpn)).block, PteAddr(root, Vpn1(vpn)).word);
    ZeroBits();
    NoEntryNoLeaf(Nowhere(), root, vpn);
  }

  // ---- the exact condition ----

  /** A fault raised at the end of a walk that found no leaf is the fault of the fetch then asserted, for
      all page tables with which that can happen, exactly when translation is on and the fetch is for the
      page that was walked. */
  lemma WalkFaultRightExactly(ic: IF.IFetch, in_: IF.IIn, root: PpnValue)
    requires in_.sv32 ==> !in_.priv.Machine?
    ensures (forall m: Blocks :: Walk(m, root, ic.walkVpn) == NoLeaf ==> FaultRight(in_, m, root)) <==> WalkFits(ic, in_)
  {
    var page := in_.addr.block.tag;
    if WalkFits(ic, in_) {
      forall m: Blocks | Walk(m, root, ic.walkVpn) == NoLeaf
        ensures FaultRight(in_, m, root)
      {
        WalksAgree(m, root, ic.walkVpn);
      }
    } else if in_.sv32 {
      MappedIsGranted(root, page, in_.priv);
      OthersHaveNoLeaf(root, page, in_.priv, ic.walkVpn);
      var m := Mapping(root, page, in_.priv);
      assert Walk(m, root, ic.walkVpn) == NoLeaf && !FaultRight(in_, m, root);
    } else {
      NowhereMaps(root, ic.walkVpn);
      assert !FaultRight(in_, Nowhere(), root);
    }
  }

  // ---- a run ----

  function Uncached(): DC.Pmas { _ => DC.Uncacheable }

  /** A clock in which the fetch stage asks for `addr` and the memory stage for nothing. */
  function Asks(csr: L.Csr, addr: Addr, priv: Priv): CoreIn {
    CoreIn(DataOp(L.NoCmd), csr, true, addr, priv, true, DC.StaysValid, true, ZERO_LINE)
  }

  /** The stages of the walk for a fetch of page v from power-on, over uncacheable memory. */
  ghost predicate Stage(c: Core, mem: Blocks, v: Vpn, root: PpnValue, k: nat) {
    var l, d := c.s.l, c.s.d;
    var read := Load(PteAddr(root, Vpn1(v)), WordSize);
    && c.done == CLEAR && d.mem == mem && l.amoPhase.AmoRead?
    && (forall j | 0 <= j < |l.tlb.entries| :: !l.tlb.entries[j].valid)
    && (if k == 0 then c.ic.proc.Idle? && forall j | 0 <= j < |c.ic.tlb.entries| :: !c.ic.tlb.entries[j].valid
        else c.ic.proc.PageTableWalk? && c.ic.walkVpn == v)
    && (if k <= 1 then l.proc.Idle? else WalksForFetch(l) && l.ptwVpn == v)
    && (if k == 4 then d.c.proc.NonCacheable? && d.c.nc == read && d.pend == read else d.c.proc.Idle? && d.pend.NoRequest?)
    && match k
       case 3 => l.walker.proc.WWalk? && l.walker.level == 1 && l.walker.addr == read.addr
       case 4 => l.walker.proc.WWalk? && l.walker.level == 1 && l.walker.addr == read.addr
       case 5 => l.walker.proc.WCheck? && l.walker.level == 1 && l.walker.pte == PteAt(mem, root, Vpn1(v))
       case _ => k <= 2 && l.walker.proc.WIdle?
  }

  lemma StageStep(c: Core, mem: Blocks, v: Vpn, csr: L.Csr, k: nat, in_: CoreIn)
    requires Stage(c, mem, v, csr.root, k) && k < 5
    requires k == 0 ==> csr.paging && !in_.priv.Machine? && in_.addr.block.tag == v
    requires in_ == Asks(csr, in_.addr, in_.priv)
    ensures Stage(Step(c, Uncached(), in_).0, mem, v, csr.root, k + 1) && Legal(c, Uncached(), in_)
  {
    if k == 0 { NoHit(c.ic.tlb, v); }
    if k == 1 { NoHit(c.s.l.tlb, v); }
  }

  lemma NoHit(t: Tlb, v: Vpn)
    requires forall j | 0 <= j < |t.entries| :: !t.entries[j].valid
    ensures !TlbHit(t, v)
  {
  }

  /** Whatever fetch is asserted when the walk ends takes its fault. */
  lemma StageFaults(c: Core, mem: Blocks, v: Vpn, csr: L.Csr, k: nat, in_: CoreIn)
    requires Stage(c, mem, v, csr.root, k) && k == 5 && !V(PteAt(mem, csr.root, Vpn1(v)))
    requires in_ == Asks(csr, in_.addr, in_.priv)
    ensures Step(c, Uncached(), in_).1.fetch.pageFault && Legal(c, Uncached(), in_)
  {
  }

  lemma {:induction false} StagesRun(m: Moment, v: Vpn, csr: L.Csr, k: nat, ins: seq<CoreIn>)
    requires Stage(m.c, m.c.s.d.mem, v, csr.root, k) && k + |ins| == 5
    requires forall j | 0 <= j < |ins| :: ins[j] == Asks(csr, ins[j].addr, ins[j].priv)
    requires k == 0 ==> csr.paging && ins[0].addr.block.tag == v && !ins[0].priv.Machine?
    ensures LegalRun(m.c, Uncached(), ins)
    ensures var e := Run(m, Uncached(), ins); Stage(e.c, m.c.s.d.mem, v, csr.root, 5)
    decreases |ins|
  {
    if ins != [] {
      StageStep(m.c, m.c.s.d.mem, v, csr, k, ins[0]);
      StagesRun(Next(m, Uncached(), ins[0]), v, csr, k + 1, ins[1..]);
    }
  }

  ghost predicate Granted(m: Blocks, root: PpnValue, in_: CoreIn) {
    SpecTranslate(m, root, in_.addr.block.tag, FetchAccess, FetchMode(in_.priv)).Grant?
  }

  /** From power-on: a fetch of a page without an entry starts a walk, the fetch stage goes on to any
      address at any privilege, and five clocks after the first it takes the page fault: at an address
      whose page section 4.3.2 grants, or in M mode with translation off. */
  lemma RedirectTakesFault(c: Core, csr: L.Csr, ins: seq<CoreIn>, last: CoreIn)
    requires PowerOn(c) && c.s.d.c.proc.Idle? && csr.paging && |ins| == 5
    requires forall j | 0 <= j < 5 :: ins[j] == Asks(csr, ins[j].addr, ins[j].priv)
    requires last == Asks(csr, last.addr, last.priv)
    requires !ins[0].priv.Machine? && !V(PteAt(c.s.d.mem, csr.root, Vpn1(ins[0].addr.block.tag)))
    ensures LegalRun(c, Uncached(), ins)
    ensures var e := Run(Start(c), Uncached(), ins);
            && Step(e.c, Uncached(), last).1.fetch.pageFault && Legal(e.c, Uncached(), last)
            && e.c.s.d.mem == c.s.d.mem
            && (last.priv.Machine? ==> !FaultRight(FetchInput(e, Uncached(), last), c.s.d.mem, csr.root))
            && (Granted(c.s.d.mem, csr.root, last) ==> !FaultRight(FetchInput(e, Uncached(), last), c.s.d.mem, csr.root))
  {
    var v := ins[0].addr.block.tag;
    StagesRun(Start(c), v, csr, 0, ins);
    var e := Run(Start(c), Uncached(), ins);
    StageFaults(e.c, c.s.d.mem, v, csr, 5, last);
  }
}

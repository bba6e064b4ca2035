/** The instruction fetch unit: a direct-mapped cache indexed by the page offset and tagged by
    the physical page, its TLB, and the invalidation loop. */
module IFetch {
  import opened Words
  import opened Memory
  import opened Paging
  import opened Translation

  datatype ILine = ILine(data: Line, tag: Tag, valid: bool)

  type ILines = s: seq<ILine> | |s| == 256 witness seq<ILine>(256, _ => ILine(ZERO_LINE, 0, false))

  datatype IProc = Idle | CompareTag | Allocate | PageTableWalk | FlushTlb | Invalidate

  datatype IFetch = IFetch(
    lines: ILines,
    proc: IProc,
    entry: ILine,                      // cache_data_entry, cache_tag_entry, cache_valid_entry
    tagAccessing: Tag,
    indexAccessing: Index,
    allocAddr: Addr,
    walkVpn: Vpn,                      // bits 31:12 of ptw_vaddr
    tlb: Tlb,
    invalidateCnt: nat)

  /** What the page-table walker answers. */
  datatype WalkAnswer = NoAnswer | PteReady(pte: Lanes, level: nat) | WalkPageFault | WalkAccessFault

  /** `addr` is the virtual address; its `block.tag` is the virtual page number. */
  datatype IIn = IIn(read: bool, addr: Addr, sv32: bool, priv: Priv, invalidate: bool, tlbFlush: bool,
                     walk: WalkAnswer, memReady: bool)

  datatype IOut = IOut(ready: bool, inst: Lanes, pageFault: bool, accessFault: bool,
                       invalidateDone: bool, tlbFlushDone: bool)

  const QUIET := IOut(false, ZERO_LANES, false, false, false, false)

  function Lookup(c: IFetch, tag: Tag, i: Index): IFetch {
    c.(proc := CompareTag, entry := c.lines[i], tagAccessing := tag, indexAccessing := i)
  }

  function StepIdle(c: IFetch, in_: IIn): (IFetch, IOut) {
    var vpn, i := in_.addr.block.tag, in_.addr.block.index;
    if in_.invalidate then (c.(proc := Invalidate, invalidateCnt := 0), QUIET)
    else if in_.tlbFlush then (c.(proc := FlushTlb), QUIET)
    else if !in_.read then (c, QUIET)
    else if !in_.sv32 then (Lookup(c, vpn, i), QUIET)
    else if TlbHit(c.tlb, vpn) then
      var e := Access(c.tlb, vpn);
      if FetchAllowed(e.pte, in_.priv) then (Lookup(c, PhysTag(e, vpn), i), QUIET)
      else (c, QUIET.(pageFault := true))
    else (c.(proc := PageTableWalk, walkVpn := vpn), QUIET)
  }

  function StepCompare(c: IFetch, in_: IIn): (IFetch, IOut) {
    if c.indexAccessing != in_.addr.block.index then (c.(proc := Idle), QUIET)
    else if c.entry.valid && c.entry.tag == c.tagAccessing then
      (c.(proc := Idle),
       if in_.read then QUIET.(ready := true, inst := c.entry.data[in_.addr.word]) else QUIET)
    else (c.(proc := Allocate, allocAddr := in_.addr.(block := BlockId(c.tagAccessing, in_.addr.block.index))), QUIET)
  }

  function StepAllocate(c: IFetch, in_: IIn, block: Line): (IFetch, IOut) {
    if in_.memReady then
      var b := c.allocAddr.block;
      (c.(proc := Idle, lines := c.lines[b.index := ILine(block, b.tag, true)]), QUIET)
    else (c, QUIET)
  }

  function StepWalk(c: IFetch, in_: IIn): (IFetch, IOut)
  {
    match in_.walk
    case NoAnswer => (c, QUIET)
    case PteReady(pte, level) => (c.(proc := Idle, tlb := Refill(c.tlb, c.walkVpn, pte, level)), QUIET)
    case WalkPageFault => (c.(proc := Idle), QUIET.(pageFault := true))
    case WalkAccessFault => (c, QUIET.(accessFault := true))
  }

  /** One iteration of the loop over all entries; then it reports and goes idle. */
  function StepInvalidate(c: IFetch): (IFetch, IOut) {
    if c.invalidateCnt < 256 then
      var i: Index := c.invalidateCnt;
      (c.(lines := c.lines[i := c.lines[i].(valid := false)], invalidateCnt := c.invalidateCnt + 1), QUIET)
    else (c.(proc := Idle), QUIET.(invalidateDone := true))
  }

  /** One clock without the replacement pointer; `block` is what memory drives. */
  function Act(c: IFetch, in_: IIn, block: Line): (IFetch, IOut)
  {
    match c.proc
    case Idle => StepIdle(c, in_)
    case CompareTag => StepCompare(c, in_)
    case Allocate => StepAllocate(c, in_, block)
    case PageTableWalk => StepWalk(c, in_)
    case FlushTlb => (c.(proc := Idle, tlb := Flush(c.tlb)), QUIET.(tlbFlushDone := true))
    case Invalidate => StepInvalidate(c)
  }

  function Next(c: IFetch, in_: IIn, block: Line): (IFetch, IOut)
  {
    var (c', out) := Act(c, in_, block);
    (c'.(tlb := Tick(c'.tlb)), out)
  }
}

/** A fetch that is held ends: with a word, or a fault. */
module IFetchProgress {
  import opened Words
  import opened Memory
  import opened Paging
  import opened Translation
  import opened IFetch

  predicate Served(out: IOut) { out.ready || out.pageFault || out.accessFault }

  /** The same fetch, whatever the walker and memory answer. */
  predicate Holds(i: IIn, in_: IIn) {
    in_.read && !in_.invalidate && !in_.tlbFlush && in_.addr == i.addr && in_.sv32 == i.sv32 && in_.priv == i.priv
  }

  predicate Waits(c: IFetch, in_: IIn) {
    (c.proc.Allocate? && !in_.memReady) || (c.proc.PageTableWalk? && in_.walk.NoAnswer?)
  }

  datatype Wanted = NotYet | Refused | Block(tag: Tag)

  /** The physical page a fetch is for, once the TLB knows it. */
  function WantedOf(t: Tlb, i: IIn): Wanted {
    if !i.sv32 then Block(i.addr.block.tag)
    else if !TlbHit(t, i.addr.block.tag) then NotYet
    else
      var e := Access(t, i.addr.block.tag);
      if FetchAllowed(e.pte, i.priv) then Block(PhysTag(e, i.addr.block.tag)) else Refused
  }

  predicate Present(lines: ILines, tag: Tag, i: Index) { lines[i].valid && lines[i].tag == tag }

  /** Clocks a held fetch still needs, not counting those spent waiting. */
  function Need(c: IFetch, i: IIn): nat {
    var w, index := WantedOf(c.tlb, i), i.addr.block.index;
    match c.proc
    case Idle => (match w case NotYet => 7 case Refused => 1 case Block(tag) => if Present(c.lines, tag, index) then 2 else 5)
    case CompareTag =>
      if c.indexAccessing != index then 9
      else if c.entry.valid && c.entry.tag == c.tagAccessing then 1
      else if w == Block(c.tagAccessing) then 4 else 9
    case Allocate => if c.allocAddr.block.index == index && w == Block(c.allocAddr.block.tag) then 3 else 8
    case PageTableWalk => if i.sv32 && c.walkVpn == i.addr.block.tag then 6 else 8
    case FlushTlb => 8
    case Invalidate => if c.invalidateCnt < 256 then 264 - c.invalidateCnt else 8
  }

  lemma SameTlb(t: Tlb, i: IIn)
    ensures WantedOf(Tick(t), i) == WantedOf(t, i)
  {
    assert Tick(t).entries == t.entries;
  }

  lemma RefillKnows(t: Tlb, i: IIn, pte: Lanes, level: nat)
    ensures !WantedOf(Tick(Refill(t, i.addr.block.tag, pte, level)), i).NotYet?
  {
    assert Matches(Refill(t, i.addr.block.tag, pte, level).entries[t.pos], i.addr.block.tag);
  }

  /** A fetch that is not yet served is nearer to it after each clock not spent waiting. */
  lemma NeedFalls(c: IFetch, i: IIn, in_: IIn, block: Line)
    requires Holds(i, in_)
    ensures var (c', out) := Next(c, in_, block);
            !Served(out) ==> Need(c', i) + (if Waits(c, in_) then 0 else 1) <= Need(c, i)
  {
    SameTlb(c.tlb, i);
    match c.proc
    case PageTableWalk =>
      if in_.walk.PteReady? && c.walkVpn == i.addr.block.tag { RefillKnows(c.tlb, i, in_.walk.pte, in_.walk.level); }
    case _ =>
  }

  // ---- runs ----

  datatype Clock = Clock(in_: IIn, block: Line)

  function Run(c: IFetch, ins: seq<Clock>): IFetch
    decreases |ins|
  {
    if ins == [] then c else Run(Next(c, ins[0].in_, ins[0].block).0, ins[1..])
  }

  function Waited(c: IFetch, ins: seq<Clock>): nat
    decreases |ins|
  {
    if ins == [] then 0 else (if Waits(c, ins[0].in_) then 1 else 0) + Waited(Next(c, ins[0].in_, ins[0].block).0, ins[1..])
  }

  predicate ServedAt(c: IFetch, ins: seq<Clock>, k: nat) {
    k < |ins| && Served(Next(Run(c, ins[..k]), ins[k].in_, ins[k].block).1)
  }

  lemma ServedLater(c: IFetch, ins: seq<Clock>, k: nat)
    requires ins != [] && ServedAt(Next(c, ins[0].in_, ins[0].block).0, ins[1..], k)
    ensures ServedAt(c, ins, k + 1)
  {
    assert ins[..k + 1][1..] == ins[1..][..k];
  }

  lemma NeedIsPositive(c: IFetch, i: IIn)
    ensures 0 < Need(c, i) <= 264
  {
  }

  /** From any state whatever: a fetch held without a fence is answered with a word, or faults, once 264
      clocks have passed in which it waits for neither the walker nor memory. */
  lemma {:induction false} FetchEnds(c: IFetch, i: IIn, ins: seq<Clock>) returns (k: nat)
    requires forall j | 0 <= j < |ins| :: Holds(i, ins[j].in_)
    requires Waited(c, ins) + Need(c, i) <= |ins|
    ensures ServedAt(c, ins, k)
    decreases |ins|
  {
    NeedIsPositive(c, i);
    var (c', out) := Next(c, ins[0].in_, ins[0].block);
    if Served(out) {
      k := 0;
      assert ins[..0] == [];
    } else {
      NeedFalls(c, i, ins[0].in_, ins[0].block);
      k := FetchEnds(c', i, ins[1..]);
      ServedLater(c, ins, k);
      k := k + 1;
    }
  }
}

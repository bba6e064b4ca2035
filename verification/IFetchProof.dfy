/** Every line the fetch unit holds is the memory it was filled from, in every run. */
module IFetchProof {
  import opened Words
  import opened Memory
  import opened Paging
  import opened Translation
  import opened IFetch

  /** Words stored to since a reference point, as (block, word) pairs. */
  type Touched = iset<(BlockId, Offset)>

  /** A line is the reference memory's block, except possibly in words stored to since. */
  ghost predicate Agrees(line: Line, b: BlockId, base: Blocks, touched: Touched) {
    forall k: Offset :: (b, k) !in touched ==> line[k] == base[b][k]
  }

  ghost predicate MemoryAgrees(mem: Blocks, base: Blocks, touched: Touched) {
    forall b: BlockId :: Agrees(mem[b], b, base, touched)
  }

  ghost predicate LinesAgree(lines: ILines, base: Blocks, touched: Touched) {
    forall i: Index :: lines[i].valid ==> Agrees(lines[i].data, BlockId(lines[i].tag, i), base, touched)
  }

  ghost predicate EntryAgrees(c: IFetch, base: Blocks, touched: Touched) {
    c.proc.CompareTag? && c.entry.valid ==> Agrees(c.entry.data, BlockId(c.entry.tag, c.indexAccessing), base, touched)
  }

  /** What the walker answers for each page while the page tables do not change. */
  type Walks = Vpn -> TlbEntry

  /** No two valid entries are for one page, and none is for the page being walked. */
  ghost predicate Unique(c: IFetch) {
    && NoDuplicates(c.tlb)
    && (c.proc.PageTableWalk? ==> forall k | 0 <= k < |c.tlb.entries| :: !Matches(c.tlb.entries[k], c.walkVpn))
  }

  /** Every entry is what the walker answered. */
  ghost predicate TlbOk(c: IFetch, walks: Walks) {
    Unique(c)
    && forall k | 0 <= k < |c.tlb.entries| :: c.tlb.entries[k].valid ==> c.tlb.entries[k] == Walked(walks, c.tlb.entries[k].tag)
  }

  function Walked(walks: Walks, vpn: Vpn): TlbEntry {
    walks(vpn).(valid := true, tag := vpn)
  }

  ghost predicate Inv(c: IFetch, base: Blocks, touched: Touched, walks: Walks) {
    && LinesAgree(c.lines, base, touched)
    && EntryAgrees(c, base, touched)
    && TlbOk(c, walks)
  }

  predicate AnswersFor(c: IFetch, in_: IIn, walks: Walks) {
    (in_.walk.PteReady? && c.proc.PageTableWalk?) ==>
      Walked(walks, c.walkVpn) == TlbEntry(true, c.walkVpn, in_.walk.pte, in_.walk.level)
  }

  /** The block memory drives while the unit allocates. */
  ghost function Fill(c: IFetch, mem: Blocks): Line { mem[c.allocAddr.block] }

  /** Whatever the walker answers. */
  lemma UniqueStep(c: IFetch, in_: IIn, block: Line)
    requires Unique(c)
    ensures Unique(Next(c, in_, block).0)
  {
    if c.proc.Idle? && Next(c, in_, block).0.proc.PageTableWalk? {
      assert !TlbHit(c.tlb, in_.addr.block.tag);
    }
  }

  lemma TlbStep(c: IFetch, in_: IIn, block: Line, walks: Walks)
    requires TlbOk(c, walks) && AnswersFor(c, in_, walks)
    ensures TlbOk(Next(c, in_, block).0, walks)
  {
    UniqueStep(c, in_, block);
  }

  /** Lines stay right if what memory drives at the end of a refill is. */
  lemma LinesStep(c: IFetch, in_: IIn, block: Line, base: Blocks, touched: Touched)
    requires LinesAgree(c.lines, base, touched) && EntryAgrees(c, base, touched)
    requires c.proc.Allocate? && in_.memReady ==> Agrees(block, c.allocAddr.block, base, touched)
    ensures var c' := Next(c, in_, block).0;
            LinesAgree(c'.lines, base, touched) && EntryAgrees(c', base, touched)
  {
  }

  /** A delivered word is the reference word at {latched tag, addr[11:0]}, if not stored to since. */
  lemma Delivered(c: IFetch, in_: IIn, block: Line, base: Blocks, touched: Touched)
    requires EntryAgrees(c, base, touched)
    ensures var out := Next(c, in_, block).1;
            var b := BlockId(c.tagAccessing, in_.addr.block.index);
            out.ready ==>
              c.proc.CompareTag? && in_.read && ((b, in_.addr.word) !in touched ==> out.inst == base[b][in_.addr.word])
  {
  }

  lemma ReadyInCompare(c: IFetch, in_: IIn, block: Line)
    ensures Next(c, in_, block).1.ready ==> c.proc.CompareTag?
  {
  }

  // ---- runs over a memory and page tables that do not change ----

  /** The unit, and the page and translation mode of the lookup in progress. */
  datatype ISys = ISys(c: IFetch, page: Vpn, paged: bool)

  /** The physical tag a fetch from a virtual page should use. */
  function WantedTag(walks: Walks, paged: bool, vpn: Vpn): Tag {
    if paged then PhysTag(Walked(walks, vpn), vpn) else vpn
  }

  ghost function IStep(s: ISys, in_: IIn, mem: Blocks): (ISys, IOut)
  {
    var (c', out) := Next(s.c, in_, Fill(s.c, mem));
    (if s.c.proc.Idle? && c'.proc.CompareTag? then ISys(c', in_.addr.block.tag, in_.sv32) else s.(c := c'), out)
  }

  ghost predicate SysInv(s: ISys, mem: Blocks, walks: Walks) {
    && Inv(s.c, mem, iset{}, walks)
    && (s.c.proc.CompareTag? ==> s.c.tagAccessing == WantedTag(walks, s.paged, s.page))
  }

  /** The word a fetch asks for. */
  ghost function Requested(in_: IIn, mem: Blocks, walks: Walks): Lanes {
    mem[BlockId(WantedTag(walks, in_.sv32, in_.addr.block.tag), in_.addr.block.index)][in_.addr.word]
  }

  /** The fetch still asks for the page that was looked up. */
  predicate SamePage(s: ISys, in_: IIn) { in_.addr.block.tag == s.page && in_.sv32 == s.paged }

  /** The latched tag is the one the fetch now wants. */
  predicate RightTag(s: ISys, in_: IIn, walks: Walks) {
    WantedTag(walks, in_.sv32, in_.addr.block.tag) == s.c.tagAccessing
  }

  lemma IStepOk(s: ISys, in_: IIn, mem: Blocks, walks: Walks)
    requires SysInv(s, mem, walks) && AnswersFor(s.c, in_, walks)
    ensures var (s', out) := IStep(s, in_, mem);
            && SysInv(s', mem, walks)
            && (out.ready ==> out.inst == mem[BlockId(s.c.tagAccessing, in_.addr.block.index)][in_.addr.word])
            && (out.ready ==> CameFrom(s.c, mem))
            && (out.ready && RightTag(s, in_, walks) ==> out.inst == Requested(in_, mem, walks))
            && (out.ready && SamePage(s, in_) ==> RightTag(s, in_, walks))
  {
    TlbStep(s.c, in_, Fill(s.c, mem), walks);
    LinesStep(s.c, in_, Fill(s.c, mem), mem, iset{});
    Delivered(s.c, in_, Fill(s.c, mem), mem, iset{});
  }

  lemma PowerOnInv(s: ISys, mem: Blocks, walks: Walks)
    requires s.c.proc.Idle? && forall i: Index :: !s.c.lines[i].valid
    requires forall k | 0 <= k < |s.c.tlb.entries| :: !s.c.tlb.entries[k].valid
    ensures SysInv(s, mem, walks)
  {
  }

  /** The latched line is the block of a memory at the latched tag. */
  ghost predicate CameFrom(c: IFetch, mem: Blocks) {
    mem[BlockId(c.tagAccessing, c.indexAccessing)] == c.entry.data
  }

  function BlockOf(c: BlockId, b: BlockId, line: Line, other: Lanes): Line {
    if c == b then line else [other, other, other, other]
  }

  /** A memory with one block given, and this word everywhere else. */
  ghost function Around(b: BlockId, line: Line, other: Lanes): Blocks {
    imap c: BlockId :: BlockOf(c, b, line, other)
  }

  /** A delivered word is the one asked for, whatever memory the line came from, exactly when the tag
      latched at the lookup is the one the fetch now wants: a redirect to the same offset of another
      page is answered from the page it left, with paging on or off, cached or not. */
  lemma RightExactlyWithTag(c: IFetch, in_: IIn, block: Line, walks: Walks)
    requires Next(c, in_, block).1.ready
    ensures (forall mem: Blocks :: CameFrom(c, mem) ==> Next(c, in_, block).1.inst == Requested(in_, mem, walks))
            <==> WantedTag(walks, in_.sv32, in_.addr.block.tag) == c.tagAccessing
  {
    var inst, latched := Next(c, in_, block).1.inst, BlockId(c.tagAccessing, c.indexAccessing);
    assert inst == c.entry.data[in_.addr.word] && c.indexAccessing == in_.addr.block.index;
    if WantedTag(walks, in_.sv32, in_.addr.block.tag) != c.tagAccessing {
      var mem := Around(latched, c.entry.data, inst.(b0 := (inst.b0 + 1) % 0x100));
      assert CameFrom(c, mem) && Requested(in_, mem, walks) != inst;
    }
  }

  ghost predicate RunAnswered(s: ISys, ins: seq<IIn>, mem: Blocks, walks: Walks)
    requires SysInv(s, mem, walks)
    decreases |ins|
  {
    ins == [] || (AnswersFor(s.c, ins[0], walks)
      && (IStepOk(s, ins[0], mem, walks); RunAnswered(IStep(s, ins[0], mem).0, ins[1..], mem, walks)))
  }

  /** In every delivery of the run, the line came from memory; so (RightExactlyWithTag) the word is the
      requested one exactly when its tag is the one wanted, as it is for the page looked up. */
  ghost predicate FetchesRight(s: ISys, ins: seq<IIn>, mem: Blocks, walks: Walks)
    requires SysInv(s, mem, walks) && RunAnswered(s, ins, mem, walks)
    decreases |ins|
  {
    ins == [] || (
      var (s', out) := IStep(s, ins[0], mem);
      && (out.ready ==> CameFrom(s.c, mem))
      && (out.ready && RightTag(s, ins[0], walks) ==> out.inst == Requested(ins[0], mem, walks))
      && (out.ready && SamePage(s, ins[0]) ==> RightTag(s, ins[0], walks))
      && (IStepOk(s, ins[0], mem, walks); FetchesRight(s', ins[1..], mem, walks)))
  }

  lemma {:induction false} EveryFetchRight(s: ISys, ins: seq<IIn>, mem: Blocks, walks: Walks)
    requires SysInv(s, mem, walks) && RunAnswered(s, ins, mem, walks)
    ensures FetchesRight(s, ins, mem, walks)
    decreases |ins|
  {
    if ins != [] {
      IStepOk(s, ins[0], mem, walks);
      EveryFetchRight(IStep(s, ins[0], mem).0, ins[1..], mem, walks);
    }
  }

  // ---- what happens when the page is not the same ----

  function Fetch(a: Addr): IIn { IIn(true, a, false, Machine, false, false, NoAnswer, true) }

  ghost function IRun(s: ISys, ins: seq<IIn>, mem: Blocks): ISys
    decreases |ins|
  {
    if ins == [] then s else IRun(IStep(s, ins[0], mem).0, ins[1..], mem)
  }

  /** Such a run: with paging off and an empty cache, a jump during the tag compare from a page to the same
      offset in any other page is answered with the word of the page it left. */
  lemma RedirectFetchesOldPage(s: ISys, mem: Blocks, left: Addr, wanted: Addr)
    requires s.c.proc.Idle? && forall i: Index :: !s.c.lines[i].valid
    requires left.block.index == wanted.block.index && left.word == wanted.word
    ensures var (e, out) := IStep(IRun(s, [Fetch(left), Fetch(left), Fetch(left), Fetch(left)], mem), Fetch(wanted), mem);
            out.ready && out.inst == mem[left.block][left.word]
  {
    var f := Fetch(left);
    var s1 := IStep(s, f, mem).0;
    var s2 := IStep(s1, f, mem).0;
    var s3 := IStep(s2, f, mem).0;
    var s4 := IStep(s3, f, mem).0;
    assert !s1.c.entry.valid && s2.c.proc.Allocate? && s2.c.allocAddr.block == left.block;
    assert s3.c.lines[left.block.index] == ILine(mem[left.block], left.block.tag, true);
    calc {
      IRun(s, [f, f, f, f], mem);
    ==  { assert [f, f, f, f][1..] == [f, f, f]; }
      IRun(s1, [f, f, f], mem);
    ==  { assert [f, f, f][1..] == [f, f]; }
      IRun(s2, [f, f], mem);
    ==  { assert [f, f][1..] == [f]; }
      IRun(s3, [f], mem);
    ==
      s4;
    }
  }
}

/** The data cache and the fetch unit on one memory, each over its own five-beat port. */
module TwoPorts {
  import opened Words
  import opened Memory
  import B = Burst
  import BP = BurstProof
  import DC = DataCache
  import DP = DataCacheProof
  import IF = IFetch
  import IP = IFetchProof

  /** History only: what the first beat of the block write in progress left in word 0. Memory may not
      have taken it, and then word 0 is still what it was. */
  datatype FirstBeat = NotTaken | Left(word: Lanes)

  /** `fill` holds the fetch unit's beat counter and buffer; its write half is not used. */
  datatype Ports = Ports(w: BP.Wired, ic: IF.IFetch, fill: B.Bus, first: FirstBeat)

  /** Both ready inputs are memory's answers to beats. */
  datatype PortsIn = PortsIn(data: DC.In, fetch: IF.IIn)

  ghost function FillReply(p: Ports, ready: bool): (B.Bus, B.Reply) {
    if p.ic.proc.Allocate? then B.NextRead(p.fill, ready, p.w.now[p.ic.allocAddr.block][p.fill.rcnt % 4]) else (p.fill, B.WAIT)
  }

  /** The fetch unit's input: its refill ends with the last beat. */
  ghost function FetchSees(p: Ports, in_: PortsIn): IF.IIn {
    in_.fetch.(memReady := FillReply(p, in_.fetch.memReady).1.done)
  }

  function FirstAfter(w: BP.Wired, first: FirstBeat, ready: bool): FirstBeat {
    if w.c.proc.WriteBack? && w.bus.wcnt == 0 then if ready then Left(w.bus.wdata[0]) else NotTaken else first
  }

  ghost function Step(p: Ports, pma: DC.Pmas, in_: PortsIn): (Ports, IF.IOut) {
    var (fill', reply) := FillReply(p, in_.fetch.memReady);
    var (ic', out) := IF.Next(p.ic, FetchSees(p, in_), reply.block);
    (Ports(BP.WiredStep(p.w, pma, in_.data).0, ic', fill', FirstAfter(p.w, p.first, in_.data.memReady)), out)
  }

  // ---- when the two ports meet ----

  /** Word 0 of a block is stale: its write has begun, memory took the first beat, which offers what
      the write buffer held before, and the last beat, which corrects it, is still to come. */
  predicate StaleWord(p: Ports, b: BlockId, k: Offset) {
    k == 0 && p.w.c.proc.WriteBack? && p.w.bus.wcnt != 0 && p.w.c.addr.block == b && p.first.Left?
  }

  /** The fetch unit takes a stale word. */
  predicate Clash(p: Ports, in_: PortsIn) {
    p.ic.proc.Allocate? && in_.fetch.memReady && p.fill.rcnt == 0 && StaleWord(p, p.ic.allocAddr.block, 0)
  }

  /** Whether memory lets that happen. */
  datatype Order = Free | Ordered

  predicate Legal(p: Ports, order: Order, in_: PortsIn) {
    && DP.Held(DP.Sys(p.w.c, p.w.now, p.w.pend), in_.data)
    && (p.w.c.proc.WriteBack? && p.w.c.flushing ==> !in_.data.dw.TurnsInvalid?)
    && (order.Ordered? ==> !Clash(p, in_))
  }

  // ---- every word the fetch unit takes is right, but for a clash ----

  /** The words already taken of a block are right. */
  ghost predicate TakenOk(u: B.Bus, b: BlockId, base: Blocks, touched: IP.Touched) {
    u.rcnt <= 4 && forall k: Offset :: k < u.rcnt && (b, k) !in touched ==> u.rdata[k] == base[b][k]
  }

  ghost predicate FillOk(p: Ports, base: Blocks, touched: IP.Touched) {
    if p.ic.proc.Allocate? then TakenOk(p.fill, p.ic.allocAddr.block, base, touched) else p.fill.rcnt == 0
  }

  /** What `first` says of word 0 is so. */
  ghost predicate FirstOk(w: BP.Wired, first: FirstBeat, mem: Blocks) {
    w.c.proc.WriteBack? && w.bus.wcnt != 0 ==>
      var b := w.c.addr.block; w.now[b][0] == if first.Left? then first.word else mem[b][0]
  }

  /** `mem` is memory with every burst either not begun or finished; `logical` is what the stores
      have made; `base` is what both were at a reference point, `touched` the words stored to since. */
  ghost predicate Inv(p: Ports, mem: Blocks, logical: Blocks, pma: DC.Pmas, base: Blocks, touched: IP.Touched) {
    && DP.Inv(BP.Abstract(p.w, mem), logical, pma) && BP.Coupled(p.w, mem)
    && IP.MemoryAgrees(logical, base, touched) && IP.MemoryAgrees(mem, base, touched)
    && IP.LinesAgree(p.ic.lines, base, touched) && IP.EntryAgrees(p.ic, base, touched)
    && FillOk(p, base, touched) && FirstOk(p.w, p.first, mem)
  }

  /** Every word of memory that is not stale, at every beat, is what it was or what it will be; and a
      stale one is what the write buffer held before. */
  lemma WordRight(p: Ports, mem: Blocks, logical: Blocks, pma: DC.Pmas, b: BlockId, k: Offset)
    requires DP.Inv(BP.Abstract(p.w, mem), logical, pma) && BP.Coupled(p.w, mem) && FirstOk(p.w, p.first, mem)
    ensures if StaleWord(p, b, k) then p.w.now[b][k] == p.first.word
            else p.w.now[b][k] == mem[b][k] || p.w.now[b][k] == logical[b][k]
  {
  }

  /** The stale word, exactly: in the first beat of a write that memory takes, word 0 becomes what
      the write buffer held before, and it stays so until the last beat. */
  lemma FirstBeatIsStale(w: BP.Wired, pma: DC.Pmas, in_: DC.In)
    requires w.c.proc.WriteBack? && w.bus.wcnt <= 4
    ensures var w' := BP.WiredStep(w, pma, in_).0; var b := w.c.addr.block;
            && (w.bus.wcnt == 0 ==> w'.now[b][0] == if in_.memReady then w.bus.wdata[0] else w.now[b][0])
            && (0 < w.bus.wcnt < 4 ==> w'.now[b][0] == w.now[b][0])
  {
  }

  /** Taking one more word, or finishing. */
  lemma TakesWord(u: B.Bus, b: BlockId, ready: bool, word: Lanes, base: Blocks, touched: IP.Touched)
    requires TakenOk(u, b, base, touched)
    requires ready && u.rcnt < 4 && (b, u.rcnt) !in touched ==> word == base[b][u.rcnt]
    ensures var (u', reply) := B.NextRead(u, ready, word);
            if reply.done then u'.rcnt == 0 && IP.Agrees(reply.block, b, base, touched) else TakenOk(u', b, base, touched)
  {
  }

  lemma WordAgrees(p: Ports, mem: Blocks, logical: Blocks, pma: DC.Pmas, base: Blocks, touched: IP.Touched,
                   b: BlockId, k: Offset)
    requires DP.Inv(BP.Abstract(p.w, mem), logical, pma) && BP.Coupled(p.w, mem) && FirstOk(p.w, p.first, mem)
    requires IP.MemoryAgrees(logical, base, touched) && IP.MemoryAgrees(mem, base, touched) && (b, k) !in touched
    ensures p.w.now[b][k] == base[b][k] <==> !StaleWord(p, b, k) || p.first.word == base[b][k]
  {
    WordRight(p, mem, logical, pma, b, k);
    assert IP.Agrees(mem[b], b, base, touched) && IP.Agrees(logical[b], b, base, touched);
  }

  /** The word the fetch unit takes in this clock, if it takes one, is right. */
  ghost predicate NextWordRight(p: Ports, ready: bool, base: Blocks, touched: IP.Touched) {
    var b := p.ic.allocAddr.block;
    ready && p.fill.rcnt < 4 && (b, p.fill.rcnt) !in touched ==> p.w.now[b][p.fill.rcnt] == base[b][p.fill.rcnt]
  }

  /** No clash; or the word has been stored to, or the stale word happens to be right. */
  ghost predicate Harmless(p: Ports, in_: PortsIn, base: Blocks, touched: IP.Touched) {
    var b := p.ic.allocAddr.block;
    !Clash(p, in_) || (b, 0) in touched || p.first.word == base[b][0]
  }

  /** The word taken is right exactly when the clock does no harm. */
  lemma WordTakenExactly(p: Ports, mem: Blocks, logical: Blocks, pma: DC.Pmas, base: Blocks, touched: IP.Touched, in_: PortsIn)
    requires DP.Inv(BP.Abstract(p.w, mem), logical, pma) && BP.Coupled(p.w, mem) && FirstOk(p.w, p.first, mem)
    requires IP.MemoryAgrees(logical, base, touched) && IP.MemoryAgrees(mem, base, touched)
    requires p.ic.proc.Allocate?
    ensures NextWordRight(p, in_.fetch.memReady, base, touched) <==> Harmless(p, in_, base, touched)
  {
    var b, n := p.ic.allocAddr.block, p.fill.rcnt;
    if in_.fetch.memReady && n < 4 && (b, n) !in touched { WordAgrees(p, mem, logical, pma, base, touched, b, n); }
  }

  lemma FillStep(p: Ports, base: Blocks, touched: IP.Touched, ready: bool)
    requires p.ic.proc.Allocate? && FillOk(p, base, touched) && NextWordRight(p, ready, base, touched)
    ensures var (fill', reply) := FillReply(p, ready);
            if reply.done then fill'.rcnt == 0 && IP.Agrees(reply.block, p.ic.allocAddr.block, base, touched)
            else TakenOk(fill', p.ic.allocAddr.block, base, touched)
  {
    TakesWord(p.fill, p.ic.allocAddr.block, ready, p.w.now[p.ic.allocAddr.block][p.fill.rcnt % 4], base, touched);
  }

  /** A refill keeps its block until it is done, and no other state counts beats. */
  lemma FillKept(p: Ports, pma: DC.Pmas, in_: PortsIn, base: Blocks, touched: IP.Touched)
    requires p.ic.proc.Allocate? ==>
               var (fill', reply) := FillReply(p, in_.fetch.memReady);
               if reply.done then fill'.rcnt == 0 else TakenOk(fill', p.ic.allocAddr.block, base, touched)
    requires !p.ic.proc.Allocate? ==> p.fill.rcnt == 0
    ensures FillOk(Step(p, pma, in_).0, base, touched)
  {
  }

  /** Words stored to, this clock included. */
  ghost function Touch(w: BP.Wired, pma: DC.Pmas, in_: DC.In, touched: IP.Touched): IP.Touched {
    if BP.WiredStep(w, pma, in_).1.ready && w.pend.Store? then touched + iset{(w.pend.addr.block, w.pend.addr.word)} else touched
  }

  /** Memory changes only to logical contents: by a writeback, or together with a store. */
  lemma MemoryFollows(d: DP.Sys, logical: Blocks, pma: DC.Pmas, in_: DC.In, b: BlockId, k: Offset)
    requires DP.Inv(d, logical, pma) && DP.Legal(d, in_)
    ensures var (d', out) := DP.Step(d, pma, in_);
            (out.ready && d.pend.Store? && d.pend.addr.block == b && d.pend.addr.word == k)
            || d'.mem[b][k] == d.mem[b][k] || d'.mem[b][k] == logical[b][k]
  {
  }

  lemma LogicalFollows(logical: Blocks, pend: Request, out: DC.Out, b: BlockId, k: Offset)
    ensures (out.ready && pend.Store? && pend.addr.block == b && pend.addr.word == k)
            || DP.After(logical, pend, out)[b][k] == logical[b][k]
  {
  }

  lemma MemoriesStep(d: DP.Sys, logical: Blocks, pma: DC.Pmas, base: Blocks, t: IP.Touched, t': IP.Touched, in_: DC.In)
    requires DP.Inv(d, logical, pma) && DP.Legal(d, in_)
    requires IP.MemoryAgrees(logical, base, t) && IP.MemoryAgrees(d.mem, base, t) && t <= t'
    requires DP.Step(d, pma, in_).1.ready && d.pend.Store? ==> (d.pend.addr.block, d.pend.addr.word) in t'
    ensures var (d', out) := DP.Step(d, pma, in_);
            IP.MemoryAgrees(DP.After(logical, d.pend, out), base, t') && IP.MemoryAgrees(d'.mem, base, t')
  {
    var (d', out) := DP.Step(d, pma, in_);
    var logical' := DP.After(logical, d.pend, out);
    forall b: BlockId
      ensures IP.Agrees(logical'[b], b, base, t') && IP.Agrees(d'.mem[b], b, base, t')
    {
      assert IP.Agrees(logical[b], b, base, t) && IP.Agrees(d.mem[b], b, base, t);
      forall k: Offset | (b, k) !in t'
        ensures logical'[b][k] == base[b][k] && d'.mem[b][k] == base[b][k]
      {
        MemoryFollows(d, logical, pma, in_, b, k);
        LogicalFollows(logical, d.pend, out, b, k);
      }
    }
  }

  lemma LinesMore(ic: IF.IFetch, base: Blocks, t: IP.Touched, t': IP.Touched)
    requires IP.LinesAgree(ic.lines, base, t) && IP.EntryAgrees(ic, base, t) && t <= t'
    ensures IP.LinesAgree(ic.lines, base, t') && IP.EntryAgrees(ic, base, t')
  {
    forall i: Index | ic.lines[i].valid
      ensures IP.Agrees(ic.lines[i].data, BlockId(ic.lines[i].tag, i), base, t')
    {
      assert IP.Agrees(ic.lines[i].data, BlockId(ic.lines[i].tag, i), base, t);
    }
  }

  /** The data port's half of a clock. */
  lemma DataStep(w: BP.Wired, mem: Blocks, logical: Blocks, pma: DC.Pmas, base: Blocks, touched: IP.Touched, in_: DC.In)
    returns (mem': Blocks, logical': Blocks)
    requires DP.Inv(BP.Abstract(w, mem), logical, pma) && BP.Coupled(w, mem) && BP.WiredLegal(w, in_)
    requires IP.MemoryAgrees(logical, base, touched) && IP.MemoryAgrees(mem, base, touched)
    ensures var w', t' := BP.WiredStep(w, pma, in_).0, Touch(w, pma, in_, touched);
            && mem' == DP.Step(BP.Abstract(w, mem), pma, BP.Seen(w, in_)).0.mem
            && DP.Inv(BP.Abstract(w', mem'), logical', pma) && BP.Coupled(w', mem')
            && IP.MemoryAgrees(logical', base, t') && IP.MemoryAgrees(mem', base, t')
  {
    var d, seen := BP.Abstract(w, mem), BP.Seen(w, in_);
    var (d', out) := DP.Step(d, pma, seen);
    BP.WiredStepRefines(w, mem, pma, in_);
    DP.StepRefines(d, logical, pma, seen);
    MemoriesStep(d, logical, pma, base, touched, Touch(w, pma, in_, touched), seen);
    mem', logical' := d'.mem, DP.After(logical, d.pend, out);
  }

  /** `first` is kept right. */
  lemma FirstStep(w: BP.Wired, first: FirstBeat, mem: Blocks, pma: DC.Pmas, in_: DC.In)
    requires BP.Coupled(w, mem) && FirstOk(w, first, mem)
    ensures var w' := BP.WiredStep(w, pma, in_).0;
            var mem' := DP.Step(BP.Abstract(w, mem), pma, BP.Seen(w, in_)).0.mem;
            FirstOk(w', FirstAfter(w, first, in_.memReady), mem')
  {
    if w.c.proc.WriteBack? && w.bus.wcnt <= 4 { FirstBeatIsStale(w, pma, in_); }
  }

  /** The fetch port's half. */
  lemma FetchStep(p: Ports, mem: Blocks, logical: Blocks, pma: DC.Pmas, base: Blocks, touched: IP.Touched, in_: PortsIn)
    requires Inv(p, mem, logical, pma, base, touched) && Harmless(p, in_, base, touched)
    ensures var p' := Step(p, pma, in_).0;
            IP.LinesAgree(p'.ic.lines, base, touched) && IP.EntryAgrees(p'.ic, base, touched) && FillOk(p', base, touched)
  {
    if p.ic.proc.Allocate? {
      WordTakenExactly(p, mem, logical, pma, base, touched, in_);
      FillStep(p, base, touched, in_.fetch.memReady);
    }
    IP.LinesStep(p.ic, FetchSees(p, in_), FillReply(p, in_.fetch.memReady).1.block, base, touched);
    FillKept(p, pma, in_, base, touched);
  }

  lemma InvStep(p: Ports, mem: Blocks, logical: Blocks, pma: DC.Pmas, base: Blocks, touched: IP.Touched, in_: PortsIn)
    returns (mem': Blocks, logical': Blocks)
    requires Inv(p, mem, logical, pma, base, touched) && Legal(p, Free, in_) && Harmless(p, in_, base, touched)
    ensures Inv(Step(p, pma, in_).0, mem', logical', pma, base, Touch(p.w, pma, in_.data, touched))
  {
    mem', logical' := DataStep(p.w, mem, logical, pma, base, touched, in_.data);
    FirstStep(p.w, p.first, mem, pma, in_.data);
    FetchStep(p, mem, logical, pma, base, touched, in_);
    LinesMore(Step(p, pma, in_).0.ic, base, touched, Touch(p.w, pma, in_.data, touched));
  }

  // ---- runs ----

  ghost predicate LegalRun(p: Ports, pma: DC.Pmas, order: Order, ins: seq<PortsIn>)
    decreases |ins|
  {
    ins == [] || (Legal(p, order, ins[0]) && LegalRun(Step(p, pma, ins[0]).0, pma, order, ins[1..]))
  }

  /** The state and the words stored to after a run. */
  datatype End = End(p: Ports, touched: IP.Touched)

  ghost function Run(e: End, pma: DC.Pmas, ins: seq<PortsIn>): End
    decreases |ins|
  {
    if ins == [] then e
    else Run(EndNext(e, pma, ins[0]), pma, ins[1..])
  }

  /** A run whose clashes, if any, do no harm. */
  ghost predicate HarmlessRun(e: End, pma: DC.Pmas, base: Blocks, ins: seq<PortsIn>)
    decreases |ins|
  {
    ins == [] || (Legal(e.p, Free, ins[0]) && Harmless(e.p, ins[0], base, e.touched)
                  && HarmlessRun(EndNext(e, pma, ins[0]), pma, base, ins[1..]))
  }

  ghost function EndNext(e: End, pma: DC.Pmas, in_: PortsIn): End {
    End(Step(e.p, pma, in_).0, Touch(e.p.w, pma, in_.data, e.touched))
  }

  lemma {:induction false} OrderedIsHarmless(e: End, pma: DC.Pmas, base: Blocks, ins: seq<PortsIn>)
    requires LegalRun(e.p, pma, Ordered, ins)
    ensures HarmlessRun(e, pma, base, ins)
    decreases |ins|
  {
    if ins != [] { OrderedIsHarmless(EndNext(e, pma, ins[0]), pma, base, ins[1..]); }
  }

  lemma {:induction false} RunInv(e: End, mem: Blocks, logical: Blocks, pma: DC.Pmas, base: Blocks, ins: seq<PortsIn>)
    returns (mem': Blocks, logical': Blocks)
    requires Inv(e.p, mem, logical, pma, base, e.touched) && HarmlessRun(e, pma, base, ins)
    ensures var f := Run(e, pma, ins); Inv(f.p, mem', logical', pma, base, f.touched)
    decreases |ins|
  {
    if ins == [] { return mem, logical; }
    mem', logical' := InvStep(e.p, mem, logical, pma, base, e.touched, ins[0]);
    mem', logical' := RunInv(EndNext(e, pma, ins[0]), mem', logical', pma, base, ins[1..]);
  }

  /** The word delivered in a clock, if any, is the reference word at {latched tag, page offset}, or
      has been stored to since. */
  ghost predicate DeliversRight(e: End, pma: DC.Pmas, in_: PortsIn, base: Blocks) {
    var out := Step(e.p, pma, in_).1;
    var b := BlockId(e.p.ic.tagAccessing, in_.fetch.addr.block.index);
    out.ready && (b, in_.fetch.addr.word) !in e.touched ==> out.inst == base[b][in_.fetch.addr.word]
  }

  lemma Delivered(e: End, mem: Blocks, logical: Blocks, pma: DC.Pmas, base: Blocks, in_: PortsIn)
    requires Inv(e.p, mem, logical, pma, base, e.touched)
    ensures DeliversRight(e, pma, in_, base)
  {
    IP.Delivered(e.p.ic, FetchSees(e.p, in_), FillReply(e.p, in_.fetch.memReady).1.block, base, e.touched);
  }

  /** Every later word is delivered right, whatever delays and accesses come between, as long as later
      clashes do no harm. */
  ghost predicate AllRight(e: End, pma: DC.Pmas, base: Blocks) {
    forall ins: seq<PortsIn>, in_: PortsIn :: HarmlessRun(e, pma, base, ins) ==> DeliversRight(Run(e, pma, ins), pma, in_, base)
  }

  lemma InvMeansRight(e: End, mem: Blocks, logical: Blocks, pma: DC.Pmas, base: Blocks)
    requires Inv(e.p, mem, logical, pma, base, e.touched)
    ensures AllRight(e, pma, base)
  {
    forall ins: seq<PortsIn>, in_: PortsIn | HarmlessRun(e, pma, base, ins)
      ensures DeliversRight(Run(e, pma, ins), pma, in_, base)
    {
      var mem', logical' := RunInv(e, mem, logical, pma, base, ins);
      Delivered(Run(e, pma, ins), mem', logical', pma, base, in_);
    }
  }

  /** In particular if memory keeps clashing beats apart. */
  lemma EveryDeliveryRight(e: End, mem: Blocks, logical: Blocks, pma: DC.Pmas, base: Blocks, ins: seq<PortsIn>, in_: PortsIn)
    requires Inv(e.p, mem, logical, pma, base, e.touched) && LegalRun(e.p, pma, Ordered, ins)
    ensures DeliversRight(Run(e, pma, ins), pma, in_, base)
  {
    OrderedIsHarmless(e, pma, base, ins);
    InvMeansRight(e, mem, logical, pma, base);
  }
}

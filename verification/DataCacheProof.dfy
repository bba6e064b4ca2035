/** The data cache with its memory, in every run, behaves as one flat byte memory. */
module DataCacheProof {
  import opened Words
  import opened Memory
  import opened DataCache

  /** The cache, the memory behind it and the request it has accepted and not yet answered. */
  datatype Sys = Sys(c: Cache, mem: Blocks, pend: Request)

  ghost function BlockRead(m: Blocks, r: MemRequest): Line {
    match r case ReadBlock(b) => m[b] case _ => ZERO_LINE
  }

  ghost function WordRead(m: Blocks, r: MemRequest): Lanes {
    match r
    case Direct(Load(a, size)) => BlockLoad(m, a, size)
    case _ => SILENT.rdata
  }

  ghost function Commit(m: Blocks, r: MemRequest): Blocks {
    match r
    case WriteBlock(b, line) => m[b := line]
    case Direct(Store(a, size, d)) => BlockStore(m, a, size, d)
    case _ => m
  }

  predicate Accepts(c: Cache, pma: Pmas, in_: In) {
    c.proc.Idle? && !in_.flush && !in_.req.NoRequest? && !pma(in_.req.addr.block).Empty?
  }

  /** One clock of cache and memory: memory answers, and commits writes, when it is ready. */
  ghost function Step(s: Sys, pma: Pmas, in_: In): (Sys, Out)
  {
    var r := MemRequestOf(s.c);
    var (c', out) := Next(s.c, pma, in_, BlockRead(s.mem, r), WordRead(s.mem, r));
    (Sys(c', if in_.memReady then Commit(s.mem, r) else s.mem,
         if Accepts(s.c, pma, in_) then in_.req else if out.ready then NoRequest else s.pend), out)
  }

  /** What the cache is promised: aligned requests, held until they are answered. */
  predicate Held(s: Sys, in_: In) {
    AlignedRequest(in_.req) && (!s.pend.NoRequest? ==> in_.req == s.pend)
  }

  /** ... and, at a flush, a double write that does not leave a dirty entry invalid. */
  predicate Legal(s: Sys, in_: In) {
    Held(s, in_) && (s.c.proc.WriteBack? && s.c.flushing ==> !in_.dw.TurnsInvalid?)
  }

  // ---- the invariant, against a logical memory ----

  ghost predicate EntryOk(e: Entry, i: Index, logical: Blocks, pma: Pmas) {
    e.valid ==> e.data == logical[BlockId(e.tag, i)] && pma(BlockId(e.tag, i)).Cacheable?
  }

  ghost predicate WaysOk(w: Ways, i: Index, logical: Blocks, pma: Pmas) {
    && EntryOk(w.e0, i, logical, pma)
    && EntryOk(w.e1, i, logical, pma)
    && !(w.e0.valid && w.e1.valid && w.e0.tag == w.e1.tag)
  }

  ghost predicate LinesOk(sets: Sets, logical: Blocks, pma: Pmas) {
    forall i: Index :: WaysOk(sets[i], i, logical, pma)
  }

  predicate DirtyCovers(w: Ways, t: Tag) {
    (w.e0.valid && w.e0.dirty && w.e0.tag == t) || (w.e1.valid && w.e1.dirty && w.e1.tag == t)
  }

  /** The block, if any, whose newest value is in the writeback register. */
  datatype InFlight = Nothing | Writing(b: BlockId)

  function InFlightOf(c: Cache): InFlight {
    if c.proc.WriteBack? then Writing(c.addr.block) else Nothing
  }

  predicate Stale(sets: Sets, w: InFlight, b: BlockId) {
    DirtyCovers(sets[b.index], b.tag) || w == Writing(b)
  }

  /** Memory is right about every block that no dirty line and no writeback covers. */
  ghost predicate MemoryOk(sets: Sets, w: InFlight, mem: Blocks, logical: Blocks) {
    forall b: BlockId :: !Stale(sets, w, b) ==> mem[b] == logical[b]
  }

  /** The victim of a miss may be dirty and invalid until the refill overwrites it. */
  datatype Slot = NoSlot | Slot(index: Index, way: bool)

  function Replacing(c: Cache): Slot {
    if (c.proc.WriteBack? && !c.flushing) || c.proc.Allocate? then Slot(c.addr.block.index, c.victim) else NoSlot
  }

  predicate DirtyOk(w: Ways, i: Index, r: Slot) {
    && (w.e0.dirty && r != Slot(i, false) ==> w.e0.valid)
    && (w.e1.dirty && r != Slot(i, true) ==> w.e1.valid)
  }

  ghost predicate DirtyIsValid(sets: Sets, r: Slot) {
    forall i: Index :: DirtyOk(sets[i], i, r)
  }

  predicate Latched(s: Sys) {
    && !s.pend.NoRequest?
    && s.c.addr == s.pend.addr
    && LatchedOp(s)
  }

  predicate LatchedOp(s: Sys) {
    && !s.pend.NoRequest?
    && Aligned(s.pend.addr, s.pend.size)
    && s.c.size == s.pend.size
    && s.c.write == s.pend.Store?
    && (s.pend.Store? ==> s.c.wdata == s.pend.data)
  }

  predicate Absent(w: Ways, b: BlockId) { !Hits(w.e0, b) && !Hits(w.e1, b) }

  /** A miss: nothing in the set holds the wanted block, and the latched copy of the way
      that stays is the one in the set. */
  predicate Missing(s: Sys, want: BlockId) {
    var w := s.c.sets[want.index];
    Absent(w, want) && w.lru == s.c.victim && (if s.c.victim then s.c.e0 == w.e0 else s.c.e1 == w.e1)
  }

  /** While it is written back, the victim's data and tag stay in its way, whatever becomes of
      its valid bit, and the other way does not hold the same block. */
  predicate HoldsVictim(c: Cache) {
    var w := c.sets[c.addr.block.index];
    var e, other := WayOf(w, c.victim), WayOf(w, !c.victim);
    e.tag == c.addr.block.tag && e.data == c.wbData && (other.valid ==> other.tag != e.tag)
  }

  ghost predicate Synced(mem: Blocks, logical: Blocks, e: Entry, i: Index) {
    e.valid && e.dirty ==> mem[BlockId(e.tag, i)] == logical[BlockId(e.tag, i)]
  }

  /** The flush has passed its first n positions: position k is way k / 256, set k % 256. */
  ghost predicate FlushedBelow(sets: Sets, mem: Blocks, logical: Blocks, n: nat) {
    forall i: Index ::
      && (i < n ==> Synced(mem, logical, sets[i].e0, i))
      && (i + 256 < n ==> Synced(mem, logical, sets[i].e1, i))
  }

  ghost predicate ProcOk(s: Sys, logical: Blocks, pma: Pmas) {
    var c := s.c;
    match c.proc
    case Idle => s.pend.NoRequest? && c.flushCnt == 0
    case CompareTag =>
      && Latched(s) && c.flushCnt == 0 && pma(c.addr.block).Cacheable?
      && c.sets[c.addr.block.index] == Ways(c.e0, c.e1, c.victim)
    case Allocate =>
      && Latched(s) && c.flushCnt == 0 && pma(c.addr.block).Cacheable?
      && Missing(s, c.addr.block)
      && Synced(s.mem, logical, WayOf(c.sets[c.addr.block.index], c.victim), c.addr.block.index)
    case WriteBack =>
      && c.wbData == logical[c.addr.block] && pma(c.addr.block).Cacheable?
      && HoldsVictim(c)
      && (if c.flushing then
            s.pend.NoRequest? && 0 < c.flushCnt && FlushedBelow(c.sets, s.mem, logical, c.flushCnt - 1)
            && c.flushCnt - 1 == c.addr.block.index + (if c.victim then 256 else 0)
          else
            LatchedOp(s) && c.flushCnt == 0 && pma(s.pend.addr.block).Cacheable?
            && c.addr.block.index == s.pend.addr.block.index
            && c.addr.block.tag != s.pend.addr.block.tag
            && Missing(s, s.pend.addr.block))
    case FlushCache => s.pend.NoRequest? && FlushedBelow(c.sets, s.mem, logical, c.flushCnt)
    case NonCacheable =>
      && s.pend == c.nc && c.flushCnt == 0 && !c.nc.NoRequest? && AlignedRequest(c.nc)
      && pma(c.nc.addr.block).Uncacheable?
  }

  ghost predicate Inv(s: Sys, logical: Blocks, pma: Pmas) {
    && AlignedRequest(s.pend)
    && LinesOk(s.c.sets, logical, pma)
    && MemoryOk(s.c.sets, InFlightOf(s.c), s.mem, logical)
    && DirtyIsValid(s.c.sets, Replacing(s.c))
    && ProcOk(s, logical, pma)
  }

  /** The flat memory the processor should see after this clock. */
  ghost function After(logical: Blocks, pend: Request, out: Out): Blocks
  {
    if out.ready && pend.Store? then BlockStore(logical, pend.addr, pend.size, pend.data) else logical
  }

  ghost predicate Refines(s: Sys, logical: Blocks, pma: Pmas, in_: In)
  {
    var (s', out) := Step(s, pma, in_);
    && Inv(s', After(logical, s.pend, out), pma)
    && (out.ready ==> !s.pend.NoRequest?)
    && (out.ready && s.pend.Load? ==> out.rdata == BlockLoad(logical, s.pend.addr, s.pend.size))
    && (out.flushDone ==> s.mem == logical && s'.mem == logical)
  }

  /** The entry the flush looks at when its counter is k: way k[8], set k[7:0]. */
  function FlushEntry(sets: Sets, k: nat): Entry
    requires k < 512
  {
    WayOf(sets[k % 256], k >= 256)
  }

  lemma StepIdle(s: Sys, logical: Blocks, pma: Pmas, in_: In)
    requires Inv(s, logical, pma) && Legal(s, in_) && s.c.proc.Idle?
    ensures Refines(s, logical, pma, in_)
  {
    var (c', out) := StartIdle(s.c, pma, in_);
    assert Step(s, pma, in_).0.c == c' && c'.sets == s.c.sets && !out.ready && !out.flushDone;
    assert InFlightOf(c') == InFlightOf(s.c) && Replacing(c') == Replacing(s.c);
  }

  lemma DirectLoadRefines(s: Sys, logical: Blocks, pma: Pmas, in_: In)
    requires Inv(s, logical, pma) && Legal(s, in_) && s.c.proc.NonCacheable? && !s.pend.Store?
    ensures Refines(s, logical, pma, in_)
  {
    var b := s.pend.addr.block;
    assert !Stale(s.c.sets, Nothing, b);
  }

  /** A store past the cache touches a block that no line holds. */
  lemma DirectStoreKeeps(sets: Sets, mem: Blocks, logical: Blocks, pma: Pmas, b: BlockId, line: Line)
    requires LinesOk(sets, logical, pma) && MemoryOk(sets, Nothing, mem, logical) && pma(b).Uncacheable?
    ensures mem[b] == logical[b]
    ensures LinesOk(sets, logical[b := line], pma) && MemoryOk(sets, Nothing, mem[b := line], logical[b := line])
  {
    assert WaysOk(sets[b.index], b.index, logical, pma);
    assert !Stale(sets, Nothing, b);
  }

  lemma DirectStoreStep(s: Sys, pma: Pmas, in_: In)
    requires s.c.proc.NonCacheable? && s.pend == s.c.nc && s.pend.Store?
    ensures var (s', out) := Step(s, pma, in_); var r := s.pend;
            if in_.memReady then s' == Sys(s.c.(proc := Idle), BlockStore(s.mem, r.addr, r.size, r.data), NoRequest)
                                 && out == SILENT.(ready := true)
            else s' == s && out == SILENT
  {
  }

  lemma DirectStoreRefines(s: Sys, logical: Blocks, pma: Pmas, in_: In)
    requires Inv(s, logical, pma) && Legal(s, in_) && s.c.proc.NonCacheable? && s.pend.Store?
    ensures Refines(s, logical, pma, in_)
  {
    DirectStoreStep(s, pma, in_);
    if in_.memReady {
      var r := s.pend;
      var line := Merge(s.mem[r.addr.block], r.addr, r.size, r.data);
      DirectStoreKeeps(s.c.sets, s.mem, logical, pma, r.addr.block, line);
      assert BlockStore(logical, r.addr, r.size, r.data) == logical[r.addr.block := line];
    }
  }

  predicate HitsWay(s: Sys, way: bool) {
    Hits(if way then s.c.e1 else s.c.e0, s.c.addr.block)
  }

  lemma LoadHitRefines(s: Sys, logical: Blocks, pma: Pmas, in_: In, way: bool)
    requires Inv(s, logical, pma) && Legal(s, in_) && s.c.proc.CompareTag?
    requires HitsWay(s, way) && s.pend.Load?
    ensures Refines(s, logical, pma, in_)
  {
  }

  lemma StoreHitRefines(s: Sys, logical: Blocks, pma: Pmas, in_: In, way: bool)
    requires Inv(s, logical, pma) && Legal(s, in_) && s.c.proc.CompareTag?
    requires HitsWay(s, way) && s.pend.Store?
    ensures Refines(s, logical, pma, in_)
  {
    var i := s.c.addr.block.index;
    var (s', out) := Step(s, pma, in_);
    var after := After(logical, s.pend, out);
    assert WaysOk(s.c.sets[i], i, logical, pma);
    assert s'.c.sets == s.c.sets[i := s'.c.sets[i]];
    LinesUpdated(s.c.sets, i, s'.c.sets[i], logical, after, pma);
  }

  predicate VictimDirty(c: Cache) { (if c.victim then c.e1 else c.e0).dirty }

  lemma MissCleanRefines(s: Sys, logical: Blocks, pma: Pmas, in_: In)
    requires Inv(s, logical, pma) && Legal(s, in_) && s.c.proc.CompareTag?
    requires Absent(Ways(s.c.e0, s.c.e1, false), s.c.addr.block) && !VictimDirty(s.c)
    ensures Refines(s, logical, pma, in_)
  {
  }

  lemma MissDirtyRefines(s: Sys, logical: Blocks, pma: Pmas, in_: In)
    requires Inv(s, logical, pma) && Legal(s, in_) && s.c.proc.CompareTag?
    requires Absent(Ways(s.c.e0, s.c.e1, false), s.c.addr.block) && VictimDirty(s.c)
    ensures Refines(s, logical, pma, in_)
  {
  }

  lemma LinesUpdated(sets: Sets, i: Index, w: Ways, before: Blocks, after: Blocks, pma: Pmas)
    requires LinesOk(sets, before, pma) && WaysOk(w, i, after, pma)
    requires forall b: BlockId :: b.index != i ==> after[b] == before[b]
    ensures LinesOk(sets[i := w], after, pma)
  {
  }

  /** The set as `writeback` leaves it. */
  function WrittenBackSet(c: Cache, dw: DoubleWrite): Ways {
    var w := c.sets[c.addr.block.index];
    WithWay(w, c.victim, WrittenBack(WayOf(w, c.victim), dw))
  }

  /** Committing the writeback register makes memory right about its block. */
  lemma MemoryCommitted(c: Cache, dw: DoubleWrite, mem: Blocks, logical: Blocks)
    requires c.proc.WriteBack? && HoldsVictim(c) && c.wbData == logical[c.addr.block]
    requires MemoryOk(c.sets, InFlightOf(c), mem, logical)
    ensures MemoryOk(c.sets[c.addr.block.index := WrittenBackSet(c, dw)], Nothing, mem[c.addr.block := c.wbData], logical)
  {
  }

  /** What a clock of `writeback` does to the sets keeps every line right and every dirty entry
      valid, but for the victim of a miss. */
  lemma WriteBackKeepsLines(c: Cache, dw: DoubleWrite, logical: Blocks, pma: Pmas)
    requires c.proc.WriteBack? && HoldsVictim(c) && c.wbData == logical[c.addr.block] && pma(c.addr.block).Cacheable?
    requires LinesOk(c.sets, logical, pma) && DirtyIsValid(c.sets, Replacing(c))
    requires c.flushing ==> !dw.TurnsInvalid?
    ensures var sets' := c.sets[c.addr.block.index := WrittenBackSet(c, dw)];
            LinesOk(sets', logical, pma) && DirtyIsValid(sets', Replacing(c))
  {
    var i := c.addr.block.index;
    assert WaysOk(c.sets[i], i, logical, pma) && DirtyOk(c.sets[i], i, Replacing(c));
    LinesUpdated(c.sets, i, WrittenBackSet(c, dw), logical, logical, pma);
  }

  /** Nothing else changes in a clock of `writeback` but the state it goes to. */
  lemma WriteBackStep(s: Sys, pma: Pmas, in_: In)
    requires s.c.proc.WriteBack?
    ensures var (s', out) := Step(s, pma, in_);
            && out == SILENT && s'.pend == s.pend
            && s'.mem == (if in_.memReady then s.mem[s.c.addr.block := s.c.wbData] else s.mem)
            && s'.c == StepWriteBack(s.c, in_).0
            && s'.c.sets == s.c.sets[s.c.addr.block.index := WrittenBackSet(s.c, in_.dw)]
  {
  }

  lemma MissWaitRefines(s: Sys, logical: Blocks, pma: Pmas, in_: In)
    requires Inv(s, logical, pma) && Legal(s, in_) && s.c.proc.WriteBack? && !s.c.flushing && !in_.memReady
    ensures Refines(s, logical, pma, in_)
  {
    WriteBackStep(s, pma, in_);
    WriteBackKeepsLines(s.c, in_.dw, logical, pma);
  }

  lemma MissCommitRefines(s: Sys, logical: Blocks, pma: Pmas, in_: In)
    requires Inv(s, logical, pma) && Legal(s, in_) && s.c.proc.WriteBack? && !s.c.flushing && in_.memReady
    ensures Refines(s, logical, pma, in_)
  {
    WriteBackStep(s, pma, in_);
    WriteBackKeepsLines(s.c, in_.dw, logical, pma);
    MemoryCommitted(s.c, in_.dw, s.mem, logical);
  }

  lemma FlushWaitRefines(s: Sys, logical: Blocks, pma: Pmas, in_: In)
    requires Inv(s, logical, pma) && Legal(s, in_) && s.c.proc.WriteBack? && s.c.flushing && !in_.memReady
    ensures Refines(s, logical, pma, in_)
  {
    WriteBackStep(s, pma, in_);
    WriteBackKeepsLines(s.c, in_.dw, logical, pma);
  }

  lemma FlushCommitRefines(s: Sys, logical: Blocks, pma: Pmas, in_: In)
    requires Inv(s, logical, pma) && Legal(s, in_) && s.c.proc.WriteBack? && s.c.flushing && in_.memReady
    ensures Refines(s, logical, pma, in_)
  {
    WriteBackStep(s, pma, in_);
    WriteBackKeepsLines(s.c, in_.dw, logical, pma);
    MemoryCommitted(s.c, in_.dw, s.mem, logical);
  }

  lemma AllocateRefines(s: Sys, logical: Blocks, pma: Pmas, in_: In)
    requires Inv(s, logical, pma) && Legal(s, in_) && s.c.proc.Allocate?
    ensures Refines(s, logical, pma, in_)
  {
  }

  lemma FlushPosition(k: nat)
    requires k < 512
    ensures k == k % 256 + (if k >= 256 then 256 else 0)
  {
  }

  lemma FlushedOneMore(sets: Sets, mem: Blocks, logical: Blocks, k: nat)
    requires k < 512 && FlushedBelow(sets, mem, logical, k) && !FlushEntry(sets, k).dirty
    ensures FlushedBelow(sets, mem, logical, k + 1)
  {
    FlushPosition(k);
  }

  lemma FlushCleanRefines(s: Sys, logical: Blocks, pma: Pmas, in_: In)
    requires Inv(s, logical, pma) && Legal(s, in_) && s.c.proc.FlushCache? && s.c.flushCnt < 512
    requires !FlushEntry(s.c.sets, s.c.flushCnt).dirty
    ensures Refines(s, logical, pma, in_)
  {
    FlushedOneMore(s.c.sets, s.mem, logical, s.c.flushCnt);
  }

  /** What the flush latches of a dirty entry, at position k. */
  lemma FlushLatches(sets: Sets, logical: Blocks, pma: Pmas, k: nat)
    requires k < 512 && FlushEntry(sets, k).dirty && LinesOk(sets, logical, pma) && DirtyIsValid(sets, NoSlot)
    ensures var i, way, e := k % 256, k >= 256, FlushEntry(sets, k); var b := BlockId(e.tag, i);
            && k == i + (if way then 256 else 0)
            && e.valid && e.data == logical[b] && pma(b).Cacheable?
            && var other := WayOf(sets[i], !way); other.valid ==> other.tag != e.tag
  {
    FlushPosition(k);
    var i: Index := k % 256;
    assert WaysOk(sets[i], i, logical, pma) && DirtyOk(sets[i], i, NoSlot);
  }

  lemma FlushDirtyRefines(s: Sys, logical: Blocks, pma: Pmas, in_: In)
    requires Inv(s, logical, pma) && Legal(s, in_) && s.c.proc.FlushCache? && s.c.flushCnt < 512
    requires FlushEntry(s.c.sets, s.c.flushCnt).dirty
    ensures Refines(s, logical, pma, in_)
  {
    FlushLatches(s.c.sets, logical, pma, s.c.flushCnt);
  }

  lemma FlushEndRefines(s: Sys, logical: Blocks, pma: Pmas, in_: In)
    requires Inv(s, logical, pma) && Legal(s, in_) && s.c.proc.FlushCache? && s.c.flushCnt == 512
    ensures Refines(s, logical, pma, in_)
  {
    forall b: BlockId
      ensures s.mem[b] == logical[b]
    {
      var w := s.c.sets[b.index];
      assert Synced(s.mem, logical, w.e0, b.index) && Synced(s.mem, logical, w.e1, b.index);
      if Stale(s.c.sets, Nothing, b) {
        assert b == BlockId(w.e0.tag, b.index) || b == BlockId(w.e1.tag, b.index);
      }
    }
  }

  lemma StepRefines(s: Sys, logical: Blocks, pma: Pmas, in_: In)
    requires Inv(s, logical, pma) && Legal(s, in_)
    ensures Refines(s, logical, pma, in_)
  {
    match s.c.proc
    case Idle => StepIdle(s, logical, pma, in_);
    case NonCacheable =>
      if s.pend.Store? { DirectStoreRefines(s, logical, pma, in_); } else { DirectLoadRefines(s, logical, pma, in_); }
    case CompareTag =>
      if Absent(Ways(s.c.e0, s.c.e1, false), s.c.addr.block) {
        if VictimDirty(s.c) { MissDirtyRefines(s, logical, pma, in_); } else { MissCleanRefines(s, logical, pma, in_); }
      } else {
        var way := !HitsWay(s, false);
        if s.pend.Store? { StoreHitRefines(s, logical, pma, in_, way); } else { LoadHitRefines(s, logical, pma, in_, way); }
      }
    case WriteBack =>
      if !s.c.flushing && in_.memReady { MissCommitRefines(s, logical, pma, in_); }
      else if !s.c.flushing { MissWaitRefines(s, logical, pma, in_); }
      else if in_.memReady { FlushCommitRefines(s, logical, pma, in_); }
      else { FlushWaitRefines(s, logical, pma, in_); }
    case Allocate => AllocateRefines(s, logical, pma, in_);
    case FlushCache =>
      if s.c.flushCnt == 512 { FlushEndRefines(s, logical, pma, in_); }
      else if FlushEntry(s.c.sets, s.c.flushCnt).dirty { FlushDirtyRefines(s, logical, pma, in_); }
      else { FlushCleanRefines(s, logical, pma, in_); }
  }

  // ---- whole runs ----

  /** A request the cache answered, with the data it returned. */
  datatype Event = Event(req: Request, rdata: Lanes)

  ghost predicate LegalRun(s: Sys, pma: Pmas, ins: seq<In>)
    decreases |ins|
  {
    ins == [] || (Legal(s, ins[0]) && LegalRun(Step(s, pma, ins[0]).0, pma, ins[1..]))
  }

  ghost function RunTo(s: Sys, pma: Pmas, ins: seq<In>): Sys
    decreases |ins|
  {
    if ins == [] then s else RunTo(Step(s, pma, ins[0]).0, pma, ins[1..])
  }

  ghost function Trace(s: Sys, pma: Pmas, ins: seq<In>): seq<Event>
    decreases |ins|
  {
    if ins == [] then []
    else
      var (s', out) := Step(s, pma, ins[0]);
      (if out.ready then [Event(s.pend, out.rdata)] else []) + Trace(s', pma, ins[1..])
  }

  ghost predicate WellFormed(t: seq<Event>) {
    forall k :: 0 <= k < |t| ==> !t[k].req.NoRequest? && AlignedRequest(t[k].req)
  }

  ghost function FlatStep(f: Flat, r: Request): Flat
    requires AlignedRequest(r)
  {
    if r.Store? then AlignedNum(r.addr, r.size); FlatStore(f, Num(r.addr), r.size, r.data) else f
  }

  ghost function FlatAnswer(f: Flat, r: Request): Lanes
    requires r.Load? && AlignedRequest(r)
  {
    AlignedNum(r.addr, r.size); FlatLoad(f, Num(r.addr), r.size)
  }

  /** The flat memory after a sequence of answered requests. */
  ghost function FlatAfter(f: Flat, t: seq<Event>): Flat
    requires WellFormed(t)
    decreases |t|
  {
    if t == [] then f else FlatAfter(FlatStep(f, t[0].req), t[1..])
  }

  /** Every load in the sequence returned what a flat byte memory holds at that point. */
  ghost predicate FlatAnswers(f: Flat, t: seq<Event>)
    requires WellFormed(t)
    decreases |t|
  {
    t == [] || (
      var r := t[0].req;
      (r.Load? ==> t[0].rdata == FlatAnswer(f, r))
      && FlatAnswers(FlatStep(f, r), t[1..]))
  }

  /** Prefixing one answered request to a sequence that is right from the memory it leaves. */
  lemma AnswerFirst(logical: Blocks, pma: Pmas, r: Request, rdata: Lanes, rest: seq<Event>)
    requires !r.NoRequest? && AlignedRequest(r) && WellFormed(rest)
    requires r.Load? ==> rdata == BlockLoad(logical, r.addr, r.size)
    ensures var logical' := After(logical, r, SILENT.(ready := true));
            var t := [Event(r, rdata)] + rest;
            && WellFormed(t)
            && FlatAfter(FlatOf(logical), t) == FlatAfter(FlatOf(logical'), rest)
            && (FlatAnswers(FlatOf(logical'), rest) ==> FlatAnswers(FlatOf(logical), t))
  {
    var t := [Event(r, rdata)] + rest;
    assert t[1..] == rest;
    if r.Store? { StoreIsFlat(logical, r.addr, r.size, r.data); } else { LoadIsFlat(logical, r.addr, r.size); }
  }

  lemma {:induction false} RunRefines(s: Sys, logical: Blocks, pma: Pmas, ins: seq<In>) returns (final: Blocks)
    requires Inv(s, logical, pma) && LegalRun(s, pma, ins)
    ensures WellFormed(Trace(s, pma, ins))
    ensures FlatAnswers(FlatOf(logical), Trace(s, pma, ins))
    ensures Inv(RunTo(s, pma, ins), final, pma)
    ensures FlatOf(final) == FlatAfter(FlatOf(logical), Trace(s, pma, ins))
    decreases |ins|
  {
    if ins == [] { return logical; }
    var (s', out) := Step(s, pma, ins[0]);
    var rest := Trace(s', pma, ins[1..]);
    StepRefines(s, logical, pma, ins[0]);
    final := RunRefines(s', After(logical, s.pend, out), pma, ins[1..]);
    if out.ready { AnswerFirst(logical, pma, s.pend, out.rdata, rest); }
    else { assert [] + rest == rest; }
  }
}

/** The two-way write-back data cache: one `Next` per clock, written state by state. */
module DataCache {
  import opened Words
  import opened Memory

  /** One way of one set: the data, tag, valid and dirty memories at one index. */
  datatype Entry = Entry(data: Line, tag: Tag, valid: bool, dirty: bool)

  /** One set; `lru` is the way to be replaced next (false = way 0). */
  datatype Ways = Ways(e0: Entry, e1: Entry, lru: bool)

  function WayOf(s: Ways, way: bool): Entry { if way then s.e1 else s.e0 }
  function WithWay(s: Ways, way: bool, e: Entry): Ways {
    if way then s.(e1 := e) else s.(e0 := e)
  }

  const ZERO_ENTRY := Entry(ZERO_LINE, 0, false, false)

  type Sets = s: seq<Ways> | |s| == 256
    witness seq<Ways>(256, _ => Ways(ZERO_ENTRY, ZERO_ENTRY, false))

  datatype Proc = Idle | CompareTag | WriteBack | Allocate | FlushCache | NonCacheable

  /** Physical memory attributes of a block. */
  datatype Pma = Empty | Cacheable | Uncacheable

  type Pmas = BlockId -> Pma

  /** `writeback` assigns the victim's valid bit twice in one clock, VALID and then CLEAN,
      which has the value of INVALID. Either assignment may survive in hardware; the third
      reading is that the second was meant for the dirty bit. */
  datatype DoubleWrite = StaysValid | TurnsInvalid | ClearsDirty

  type FlushCount = k: nat | k <= 512

  datatype Cache = Cache(
    sets: Sets,
    proc: Proc,
    e0: Entry, e1: Entry, victim: bool,                           // cache_*_entry0/1, cache_lru_entry
    addr: Addr, size: Size, wdata: Lanes, write: bool,            // cache_addr, _byteen, _wdata, _op
    wbData: Line, flushing: bool,                                 // cache_writeback_entry, flushing
    nc: Request,                                                  // noncacheable_memop_*
    flushCnt: FlushCount)

  datatype In = In(req: Request, flush: bool, memReady: bool, dw: DoubleWrite)
  datatype Out = Out(ready: bool, rdata: Lanes, fault: bool, flushDone: bool)

  const SILENT := Out(false, ZERO_LANES, false, false)

  /** What the cache asks of memory in its current state. */
  datatype MemRequest = NoMem | ReadBlock(b: BlockId) | WriteBlock(b: BlockId, line: Line) | Direct(req: Request)

  function MemRequestOf(c: Cache): MemRequest {
    match c.proc
    case WriteBack => WriteBlock(c.addr.block, c.wbData)
    case Allocate => ReadBlock(c.addr.block)
    case NonCacheable => Direct(c.nc)
    case _ => NoMem
  }

  function StartIdle(c: Cache, pma: Pmas, in_: In): (Cache, Out) {
    if in_.flush then (c.(proc := FlushCache), SILENT)
    else if in_.req.NoRequest? then (c, SILENT)
    else
      match pma(in_.req.addr.block)
      case Empty => (c, SILENT.(fault := true))
      case Uncacheable => (c.(proc := NonCacheable, nc := in_.req), SILENT)
      case Cacheable =>
        var s := c.sets[in_.req.addr.block.index];
        (c.(proc := CompareTag, e0 := s.e0, e1 := s.e1, victim := s.lru,
            addr := in_.req.addr, size := in_.req.size,
            wdata := if in_.req.Store? then in_.req.data else c.wdata, write := in_.req.Store?), SILENT)
  }

  /** cache_hit: deliver from, or write into, the way that hit and make the other way LRU. */
  function Hit(c: Cache, e: Entry, way: bool): (Cache, Out)
  {
    var i := c.addr.block.index;
    var s := c.sets[i];
    var s' := if c.write then WithWay(s, way, WayOf(s, way).(data := Merge(e.data, c.addr, c.size, c.wdata),
                                                             valid := true, dirty := true)) else s;
    (c.(proc := Idle, sets := c.sets[i := s'.(lru := !way)]),
     SILENT.(ready := true, rdata := if c.write then SILENT.rdata else Pick(e.data, c.addr, c.size)))
  }

  function BlockStart(b: BlockId): Addr { Addr(b, 0, 0) }

  predicate Hits(e: Entry, b: BlockId) { e.valid && e.tag == b.tag }

  function StepCompare(c: Cache): (Cache, Out)
  {
    var b := c.addr.block;
    if Hits(c.e0, b) then Hit(c, c.e0, false)
    else if Hits(c.e1, b) then Hit(c, c.e1, true)
    else
      var e := if c.victim then c.e1 else c.e0;
      if e.dirty then
        (c.(proc := WriteBack, wbData := e.data, addr := BlockStart(BlockId(e.tag, b.index)), flushing := false), SILENT)
      else (c.(proc := Allocate), SILENT)
  }

  /** The victim's entry after a clock of `writeback`, for each outcome of the double write. */
  function WrittenBack(e: Entry, dw: DoubleWrite): Entry {
    match dw
    case StaysValid => e.(valid := true)
    case TurnsInvalid => e.(valid := false)
    case ClearsDirty => e.(valid := true, dirty := false)
  }

  function StepWriteBack(c: Cache, in_: In): (Cache, Out) {
    var i := c.addr.block.index;
    var s := c.sets[i];
    var c' := c.(sets := c.sets[i := WithWay(s, c.victim, WrittenBack(WayOf(s, c.victim), in_.dw))]);
    (if !in_.memReady then c'
     else if c.flushing then c'.(proc := FlushCache)
     else c'.(proc := Allocate, addr := if in_.req.NoRequest? then c.addr else in_.req.addr), SILENT)
  }

  function StepAllocate(c: Cache, in_: In, block: Line): (Cache, Out) {
    if !in_.memReady then (c, SILENT)
    else
      var i := c.addr.block.index;
      var e := Entry(block, c.addr.block.tag, true, false);
      (c.(proc := CompareTag, sets := c.sets[i := WithWay(c.sets[i], c.victim, e)],
          e0 := if c.victim then c.e0 else e, e1 := if c.victim then e else c.e1), SILENT)
  }

  function StepFlush(c: Cache): (Cache, Out)
  {
    if c.flushCnt == 512 then
      (c.(flushCnt := 0, flushing := false, proc := Idle), SILENT.(flushDone := true))
    else
      var way := c.flushCnt >= 256;
      var i := c.flushCnt % 256;
      var e := WayOf(c.sets[i], way);
      var c' := c.(flushCnt := c.flushCnt + 1);
      (if e.dirty
       then c'.(proc := WriteBack, wbData := e.data, victim := way, addr := BlockStart(BlockId(e.tag, i)), flushing := true)
       else c', SILENT)
  }

  function StepDirect(c: Cache, in_: In, word: Lanes): (Cache, Out) {
    if in_.memReady then (c.(proc := Idle), SILENT.(ready := true, rdata := word)) else (c, SILENT)
  }

  /** One clock; `block` and `word` are what memory drives for a block or a direct read. */
  function Next(c: Cache, pma: Pmas, in_: In, block: Line, word: Lanes): (Cache, Out)
  {
    match c.proc
    case Idle => StartIdle(c, pma, in_)
    case CompareTag => StepCompare(c)
    case WriteBack => StepWriteBack(c, in_)
    case Allocate => StepAllocate(c, in_, block)
    case FlushCache => StepFlush(c)
    case NonCacheable => StepDirect(c, in_, word)
  }
}

/** The data bus: a 128-bit transfer is five word beats, counted by three-bit registers. */
module Burst {
  import opened Words
  import opened Memory
  import opened DataCache

  type Count = k: int | 0 <= k < 8

  /** lsu_read_cnt and _data, lsu_write_cnt and _data. */
  datatype Bus = Bus(rcnt: Count, rdata: Line, wcnt: Count, wdata: Line)

  datatype Reply = Reply(done: bool, block: Line, word: Lanes)

  const WAIT := Reply(false, ZERO_LINE, ZERO_LANES)

  /** What the bus asks of memory in this clock. The beat's address and, for a write, its data
      take the count modulo four: the fifth beat is word 0 again. */
  function BeatOf(u: Bus, r: MemRequest): Request {
    match r
    case NoMem => NoRequest
    case ReadBlock(b) => Load(Addr(b, u.rcnt % 4, 0), WordSize)
    case WriteBlock(b, _) => Store(Addr(b, u.wcnt % 4, 0), WordSize, u.wdata[u.wcnt % 4])
    case Direct(req) => req
  }

  function NextRead(u: Bus, ready: bool, rdata: Lanes): (Bus, Reply) {
    if !ready then (u, WAIT)
    else if u.rcnt == 4 then (u.(rcnt := 0), WAIT.(done := true, block := u.rdata))
    else (u.(rcnt := (u.rcnt + 1) % 8, rdata := u.rdata[u.rcnt % 4 := rdata]), WAIT)
  }

  /** Count 0 latches the data and moves on without waiting for memory. */
  function NextWrite(u: Bus, line: Line, ready: bool): (Bus, Reply) {
    if u.wcnt == 0 then (u.(wcnt := 1, wdata := line), WAIT)
    else if !ready then (u, WAIT)
    else if u.wcnt == 4 then (u.(wcnt := 0), WAIT.(done := true))
    else (u.(wcnt := (u.wcnt + 1) % 8), WAIT)
  }

  function Next(u: Bus, r: MemRequest, ready: bool, rdata: Lanes): (Bus, Reply) {
    match r
    case NoMem => (u, WAIT)
    case ReadBlock(_) => NextRead(u, ready, rdata)
    case WriteBlock(_, line) => NextWrite(u, line, ready)
    case Direct(req) => (u, if ready then WAIT.(done := true, word := if req.Load? then rdata else ZERO_LANES) else WAIT)
  }

  /** The counters and buffers, clock by clock. */
  class Unit {
    var rcnt: Count
    const rdata: array<Lanes>
    var wcnt: Count
    const wdata: array<Lanes>

    ghost predicate Valid() { rdata.Length == 4 && wdata.Length == 4 && rdata != wdata }

    ghost function State(): Bus
      requires Valid()
      reads this, rdata, wdata
    {
      Bus(rcnt, rdata[..], wcnt, wdata[..])
    }

    constructor ()
      ensures Valid() && fresh(rdata) && fresh(wdata) && rcnt == 0 && wcnt == 0
    {
      rcnt, wcnt := 0, 0;
      rdata := new Lanes[4](_ => ZERO_LANES);
      wdata := new Lanes[4](_ => ZERO_LANES);
    }

    method ClockRead(ready: bool, data: Lanes) returns (reply: Reply)
      requires Valid()
      modifies this`rcnt, rdata
      ensures (State(), reply) == NextRead(old(State()), ready, data)
    {
      reply := WAIT;
      if rcnt == 4 {
        if ready {
          rcnt := 0;
          reply := Reply(true, rdata[..], ZERO_LANES);
        }
      } else if ready {
        rdata[rcnt % 4] := data;
        rcnt := (rcnt + 1) % 8;
      }
    }

    method ClockWrite(line: Line, ready: bool) returns (reply: Reply)
      requires Valid()
      modifies this`wcnt, wdata
      ensures (State(), reply) == NextWrite(old(State()), line, ready)
    {
      reply := WAIT;
      if wcnt == 0 {
        wdata[0], wdata[1], wdata[2], wdata[3] := line[0], line[1], line[2], line[3];
        assert wdata[..] == line;
        wcnt := 1;
      } else if wcnt == 4 {
        if ready {
          wcnt := 0;
          reply := reply.(done := true);
        }
      } else if ready {
        wcnt := (wcnt + 1) % 8;
      }
    }
  }
}

/** The cache over the five-beat bus behaves as the cache over memory that moves whole blocks,
    so its runs are runs of flat memory for every pattern of beat delays. */
module BurstProof {
  import opened Words
  import opened Memory
  import opened DataCache
  import opened DataCacheProof
  import opened DataCacheResults
  import opened Burst

  // ---- one transfer ----

  /** What memory holds while a block write is at count n: word 0 may be anything once the
      stale first beat has been offered. */
  ghost predicate Partly(now: Blocks, mem: Blocks, b: BlockId, line: Line, n: Count) {
    && (n == 0 ==> now == mem)
    && (forall c: BlockId :: c != b ==> now[c] == mem[c])
    && (forall k | 1 <= k < 4 :: now[b][k] == if k < n then line[k] else mem[b][k])
  }

  /** The bus is at some beat of request r; `mem` is memory as it was before the request. */
  ghost predicate Midway(u: Bus, r: MemRequest, now: Blocks, mem: Blocks) {
    match r
    case ReadBlock(b) => u.wcnt == 0 && u.rcnt <= 4 && now == mem && u.rdata[..u.rcnt] == mem[b][..u.rcnt]
    case WriteBlock(b, line) =>
      u.rcnt == 0 && u.wcnt <= 4 && (u.wcnt != 0 ==> u.wdata == line) && Partly(now, mem, b, line, u.wcnt)
    case _ => u.rcnt == 0 && u.wcnt == 0 && now == mem
  }

  ghost function Drive(now: Blocks, beat: Request): Lanes {
    if beat.Load? then BlockLoad(now, beat.addr, beat.size) else ZERO_LANES
  }

  /** Memory commits a write beat when it is ready. */
  ghost function Beaten(now: Blocks, beat: Request, ready: bool): Blocks {
    if ready && beat.Store? then BlockStore(now, beat.addr, beat.size, beat.data) else now
  }

  ghost predicate BeatOk(u: Bus, r: MemRequest, now: Blocks, mem: Blocks, ready: bool) {
    var beat := BeatOf(u, r);
    var (u', reply) := Burst.Next(u, r, ready, Drive(now, beat));
    var now' := Beaten(now, beat, ready);
    if reply.done then
      u'.rcnt == 0 && u'.wcnt == 0 && now' == Commit(mem, r) && reply.block == BlockRead(mem, r) && reply.word == WordRead(mem, r)
    else Midway(u', r, now', mem)
  }

  lemma ReadBeat(u: Bus, b: BlockId, now: Blocks, mem: Blocks, ready: bool)
    requires Midway(u, ReadBlock(b), now, mem)
    ensures BeatOk(u, ReadBlock(b), now, mem, ready)
  {
    if u.rcnt == 4 {
      assert u.rdata == u.rdata[..4] && mem[b] == mem[b][..4];
    } else if ready {
      var u' := NextRead(u, ready, Drive(now, BeatOf(u, ReadBlock(b)))).0;
      assert u'.rdata[..u.rcnt] == u.rdata[..u.rcnt];
      assert u'.rdata[u.rcnt] == mem[b][u.rcnt];
    }
  }

  lemma WriteBeat(u: Bus, b: BlockId, line: Line, now: Blocks, mem: Blocks, ready: bool)
    requires Midway(u, WriteBlock(b, line), now, mem)
    ensures BeatOk(u, WriteBlock(b, line), now, mem, ready)
  {
    var beat := BeatOf(u, WriteBlock(b, line));
    var now' := Beaten(now, beat, ready);
    assert ready ==> now' == now[b := now[b][u.wcnt % 4 := u.wdata[u.wcnt % 4]]];
    if u.wcnt == 4 && ready {
      assert now'[b] == line;
      assert now' == mem[b := line];
    }
  }

  /** Beats a transfer still needs. */
  function BeatsLeft(u: Bus, r: MemRequest): int {
    match r
    case NoMem => 0
    case ReadBlock(_) => 5 - u.rcnt
    case WriteBlock(_, _) => 5 - u.wcnt
    case Direct(_) => 1
  }

  /** A block takes exactly five beats and a direct access one; only the first beat of a write, which latches
      the data, does not wait for memory. */
  lemma TransferEnds(u: Bus, r: MemRequest, ready: bool, rdata: Lanes)
    requires u.rcnt <= 4 && u.wcnt <= 4 && !r.NoMem?
    ensures var (u', reply) := Burst.Next(u, r, ready, rdata); var moves := ready || (r.WriteBlock? && BeatsLeft(u, r) == 5);
            && (reply.done <==> moves && BeatsLeft(u, r) == 1)
            && (!moves ==> u' == u)
            && (moves ==> BeatsLeft(u', r) == (if !reply.done then BeatsLeft(u, r) - 1 else if r.Direct? then 1 else 5))
  {
  }

  /** The request a clock of the bus completes has been done as one step: a read has returned
      the four words of its block, a write has left exactly its data; until then memory differs
      from what it was only in the block being written. */
  lemma BeatRefines(u: Bus, r: MemRequest, now: Blocks, mem: Blocks, ready: bool)
    requires Midway(u, r, now, mem)
    ensures BeatOk(u, r, now, mem, ready)
  {
    match r
    case ReadBlock(b) => ReadBeat(u, b, now, mem, ready);
    case WriteBlock(b, line) => WriteBeat(u, b, line, now, mem, ready);
    case _ =>
  }

  // ---- the cache on the bus ----

  datatype Wired = Wired(c: Cache, bus: Bus, now: Blocks, pend: Request)

  ghost function BusReply(w: Wired, ready: bool): (Bus, Reply) {
    var r := MemRequestOf(w.c);
    Burst.Next(w.bus, r, ready, Drive(w.now, BeatOf(w.bus, r)))
  }

  /** One clock; `memReady` is now memory's answer to a beat. */
  ghost function WiredStep(w: Wired, pma: Pmas, in_: In): (Wired, Out) {
    var (bus', reply) := BusReply(w, in_.memReady);
    var (c', out) := DataCache.Next(w.c, pma, in_.(memReady := reply.done), reply.block, reply.word);
    (Wired(c', bus', Beaten(w.now, BeatOf(w.bus, MemRequestOf(w.c)), in_.memReady),
           if Accepts(w.c, pma, in_) then in_.req else if out.ready then NoRequest else w.pend), out)
  }

  /** The same clock as the cache sees it over whole-block memory. */
  ghost function Seen(w: Wired, in_: In): In { in_.(memReady := BusReply(w, in_.memReady).1.done) }

  ghost function Abstract(w: Wired, mem: Blocks): Sys { Sys(w.c, mem, w.pend) }

  ghost predicate Coupled(w: Wired, mem: Blocks) { Midway(w.bus, MemRequestOf(w.c), w.now, mem) }

  /** A request stays up until memory has answered it, and the cache looks at nothing memory
      drives before that. */
  lemma RequestHeld(c: Cache, pma: Pmas, in_: In, block: Line, word: Lanes)
    requires !in_.memReady
    ensures var (c', out) := DataCache.Next(c, pma, in_, block, word);
            && (!MemRequestOf(c).NoMem? ==> MemRequestOf(c') == MemRequestOf(c))
            && (c', out) == DataCache.Next(c, pma, in_, ZERO_LINE, ZERO_LANES)
  {
  }

  lemma WiredStepRefines(w: Wired, mem: Blocks, pma: Pmas, in_: In)
    requires Coupled(w, mem)
    ensures var (w', out) := WiredStep(w, pma, in_);
            var (s', out') := Step(Abstract(w, mem), pma, Seen(w, in_));
            && out == out' && s' == Abstract(w', s'.mem) && Coupled(w', s'.mem)
  {
    var r := MemRequestOf(w.c);
    BeatRefines(w.bus, r, w.now, mem, in_.memReady);
    var (bus', reply) := BusReply(w, in_.memReady);
    if !reply.done {
      RequestHeld(w.c, pma, Seen(w, in_), reply.block, reply.word);
      RequestHeld(w.c, pma, Seen(w, in_), BlockRead(mem, r), WordRead(mem, r));
    }
  }

  // ---- runs ----

  ghost predicate WiredLegal(w: Wired, in_: In) { Legal(Abstract(w, w.now), in_) }

  ghost predicate WiredRun(w: Wired, pma: Pmas, ins: seq<In>)
    decreases |ins|
  {
    ins == [] || (WiredLegal(w, ins[0]) && WiredRun(WiredStep(w, pma, ins[0]).0, pma, ins[1..]))
  }

  ghost function WiredTo(w: Wired, pma: Pmas, ins: seq<In>): Wired
    decreases |ins|
  {
    if ins == [] then w else WiredTo(WiredStep(w, pma, ins[0]).0, pma, ins[1..])
  }

  ghost function WiredTrace(w: Wired, pma: Pmas, ins: seq<In>): seq<Event>
    decreases |ins|
  {
    if ins == [] then []
    else
      var (w', out) := WiredStep(w, pma, ins[0]);
      (if out.ready then [Event(w.pend, out.rdata)] else []) + WiredTrace(w', pma, ins[1..])
  }

  /** Every run over the bus is, event for event, a run over whole-block memory. */
  lemma {:induction false} WiredRunRefines(w: Wired, mem: Blocks, pma: Pmas, ins: seq<In>) returns (seen: seq<In>)
    requires Coupled(w, mem) && WiredRun(w, pma, ins)
    ensures LegalRun(Abstract(w, mem), pma, seen)
    ensures WiredTrace(w, pma, ins) == Trace(Abstract(w, mem), pma, seen)
    ensures var s := RunTo(Abstract(w, mem), pma, seen);
            s == Abstract(WiredTo(w, pma, ins), s.mem) && Coupled(WiredTo(w, pma, ins), s.mem)
    decreases |ins|
  {
    if ins == [] { return []; }
    var w' := WiredStep(w, pma, ins[0]).0;
    var s' := Step(Abstract(w, mem), pma, Seen(w, ins[0])).0;
    WiredStepRefines(w, mem, pma, ins[0]);
    var rest := WiredRunRefines(w', s'.mem, pma, ins[1..]);
    seen := [Seen(w, ins[0])] + rest;
    assert seen[1..] == rest;
  }

  ghost predicate WiredPowerOn(w: Wired) {
    PowerOn(Abstract(w, w.now)) && w.bus.rcnt == 0 && w.bus.wcnt == 0
  }

  /** For every pattern of beat delays, every load through the cache returns what flat byte
      memory holds. */
  lemma CacheOverBusIsFlatMemory(w: Wired, pma: Pmas, ins: seq<In>)
    requires WiredPowerOn(w) && WiredRun(w, pma, ins)
    ensures WellFormed(WiredTrace(w, pma, ins)) && FlatAnswers(FlatOf(w.now), WiredTrace(w, pma, ins))
  {
    var seen := WiredRunRefines(w, w.now, pma, ins);
    CacheIsFlatMemory(Abstract(w, w.now), pma, seen);
  }

  lemma FlushDoneLeavesBusIdle(w: Wired, mem: Blocks, pma: Pmas, in_: In)
    requires Coupled(w, mem) && WiredStep(w, pma, in_).1.flushDone
    ensures var (s', out) := Step(Abstract(w, mem), pma, Seen(w, in_));
            out.flushDone && WiredStep(w, pma, in_).0.now == s'.mem
  {
    WiredStepRefines(w, mem, pma, in_);
    assert WiredStep(w, pma, in_).0.c.proc.Idle?;
  }

  /** When a flush reports done, the words in memory are those flat memory holds: no burst is
      left half way. */
  lemma FlushOverBusEndsSynced(w: Wired, pma: Pmas, ins: seq<In>, last: In)
    requires WiredPowerOn(w) && WiredRun(w, pma, ins)
    requires WiredLegal(WiredTo(w, pma, ins), last) && WiredStep(WiredTo(w, pma, ins), pma, last).1.flushDone
    ensures WellFormed(WiredTrace(w, pma, ins))
    ensures FlatOf(WiredStep(WiredTo(w, pma, ins), pma, last).0.now) == FlatAfter(FlatOf(w.now), WiredTrace(w, pma, ins))
  {
    var seen := WiredRunRefines(w, w.now, pma, ins);
    var s := RunTo(Abstract(w, w.now), pma, seen);
    var end := WiredTo(w, pma, ins);
    FlushDoneLeavesBusIdle(end, s.mem, pma, last);
    FlushEndsSynced(Abstract(w, w.now), pma, seen, Seen(end, last));
  }
}

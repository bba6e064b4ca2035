/** The data cache as the clocked object it is: way memories and registers updated in place.
    `Clock` is one clock edge; it does what DataCache.Next says. */
module DataCacheUnit {
  import opened Words
  import opened Memory
  import opened DataCache

  class Unit {
    const way0: array<Entry>
    const way1: array<Entry>
    const lru: array<bool>
    var proc: Proc
    var entry0: Entry
    var entry1: Entry
    var victim: bool
    var addr: Addr
    var size: Size
    var wdata: Lanes
    var write: bool
    var wbData: Line
    var flushing: bool
    var nc: Request
    var flushCnt: FlushCount

    ghost predicate Valid() {
      way0 != way1 && way0.Length == way1.Length == lru.Length == 256
    }

    ghost function Sets(): Sets
      requires Valid()
      reads way0, way1, lru
    {
      seq(256, i requires 0 <= i < 256 && Valid() reads way0, way1, lru => Ways(way0[i], way1[i], lru[i]))
    }

    ghost function State(): Cache
      requires Valid()
      reads this, way0, way1, lru
    {
      Cache(Sets(), proc, entry0, entry1, victim, addr, size, wdata, write, wbData, flushing, nc, flushCnt)
    }

    /** Configuration: all entries invalid and clean, way 0 replaced first. */
    constructor ()
      ensures Valid() && fresh(way0) && fresh(way1) && fresh(lru)
      ensures proc == Idle && flushCnt == 0
      ensures forall i: Index :: !way0[i].valid && !way0[i].dirty && !way1[i].valid && !way1[i].dirty && !lru[i]
    {
      way0 := new Entry[256](_ => ZERO_ENTRY);
      way1 := new Entry[256](_ => ZERO_ENTRY);
      lru := new bool[256](_ => false);
      proc, victim, write, flushing, nc, flushCnt := Idle, false, false, false, NoRequest, 0;
      entry0, entry1, wbData := ZERO_ENTRY, ZERO_ENTRY, ZERO_LINE;
      addr, size, wdata := Addr(BlockId(0, 0), 0, 0), ByteSize, ZERO_LANES;
    }

    method Clock(pma: Pmas, in_: In, block: Line, word: Lanes) returns (out: Out)
      requires Valid()
      modifies this, way0, way1, lru
      ensures Valid()
      ensures (State(), out) == Next(old(State()), pma, in_, block, word)
    {
      match proc
      case Idle => out := ClockIdle(pma, in_);
      case CompareTag => out := ClockCompare();
      case WriteBack => ClockWriteBack(in_); out := SILENT;
      case Allocate => ClockAllocate(in_, block); out := SILENT;
      case FlushCache => out := ClockFlush();
      case NonCacheable =>
        out := SILENT;
        if in_.memReady {
          out := out.(ready := true, rdata := word);
          proc := Idle;
        }
    }

    method ClockIdle(pma: Pmas, in_: In) returns (out: Out)
      requires Valid()
      modifies this
      ensures Valid() && (State(), out) == StartIdle(old(State()), pma, in_)
    {
      out := SILENT;
      if in_.flush {
        proc := FlushCache;
      } else if !in_.req.NoRequest? {
        match pma(in_.req.addr.block)
        case Empty => out := out.(fault := true);
        case Uncacheable => proc, nc := NonCacheable, in_.req;
        case Cacheable => ClockAccept(in_.req);
      }
    }

    /** A cacheable request is latched with the ways of its set. */
    method ClockAccept(req: Request)
      requires Valid() && !req.NoRequest?
      modifies this
      ensures Valid()
      ensures var c, s := old(State()), old(State()).sets[req.addr.block.index];
              State() == c.(proc := CompareTag, e0 := s.e0, e1 := s.e1, victim := s.lru, addr := req.addr, size := req.size,
                            wdata := if req.Store? then req.data else c.wdata, write := req.Store?)
    {
      var i := req.addr.block.index;
      proc, entry0, entry1, victim := CompareTag, way0[i], way1[i], lru[i];
      addr, size, write := req.addr, req.size, req.Store?;
      if req.Store? { wdata := req.data; }
    }

    method ClockCompare() returns (out: Out)
      requires Valid()
      modifies this, way0, way1, lru
      ensures Valid() && (State(), out) == StepCompare(old(State()))
    {
      out := SILENT;
      if Hits(entry0, addr.block) {
        out := ClockHit(entry0, false);
      } else if Hits(entry1, addr.block) {
        out := ClockHit(entry1, true);
      } else {
        var e := if victim then entry1 else entry0;
        if e.dirty {
          proc, wbData, flushing := WriteBack, e.data, false;
          addr := BlockStart(BlockId(e.tag, addr.block.index));
        } else {
          proc := Allocate;
        }
      }
    }

    method ClockHit(e: Entry, way: bool) returns (out: Out)
      requires Valid()
      modifies this`proc, way0, way1, lru
      ensures Valid() && (State(), out) == Hit(old(State()), e, way)
    {
      var i := addr.block.index;
      out := SILENT.(ready := true);
      if write {
        var data := Merge(e.data, addr, size, wdata);
        if way {
          way1[i] := way1[i].(data := data, valid := true, dirty := true);
        } else {
          way0[i] := way0[i].(data := data, valid := true, dirty := true);
        }
      } else {
        out := out.(rdata := Pick(e.data, addr, size));
      }
      lru[i] := !way;
      proc := Idle;
      assert Sets() == old(Sets())[i := Ways(way0[i], way1[i], lru[i])];
    }

    method ClockWriteBack(in_: In)
      requires Valid()
      modifies this, way0, way1
      ensures Valid() && State() == StepWriteBack(old(State()), in_).0
    {
      var i := addr.block.index;
      if victim { way1[i] := WrittenBack(way1[i], in_.dw); } else { way0[i] := WrittenBack(way0[i], in_.dw); }
      assert Sets() == old(Sets())[i := Ways(way0[i], way1[i], lru[i])];
      if in_.memReady {
        if flushing {
          proc := FlushCache;
        } else {
          proc := Allocate;
          if !in_.req.NoRequest? { addr := in_.req.addr; }
        }
      }
    }

    method ClockAllocate(in_: In, block: Line)
      requires Valid()
      modifies this, way0, way1
      ensures Valid() && State() == StepAllocate(old(State()), in_, block).0
    {
      if in_.memReady {
        var i := addr.block.index;
        var e := Entry(block, addr.block.tag, true, false);
        if victim { way1[i] := e; entry1 := e; } else { way0[i] := e; entry0 := e; }
        proc := CompareTag;
        assert Sets() == old(Sets())[i := Ways(way0[i], way1[i], lru[i])];
      }
    }

    method ClockFlush() returns (out: Out)
      requires Valid()
      modifies this
      ensures Valid() && (State(), out) == StepFlush(old(State()))
    {
      out := SILENT;
      if flushCnt == 512 {
        flushCnt, flushing, proc := 0, false, Idle;
        out := out.(flushDone := true);
      } else {
        var i, way := flushCnt % 256, flushCnt >= 256;
        var e := if way then way1[i] else way0[i];
        if e.dirty {
          proc, wbData, victim, flushing := WriteBack, e.data, way, true;
          addr := BlockStart(BlockId(e.tag, i));
        }
        flushCnt := flushCnt + 1;
      }
    }
  }
}
